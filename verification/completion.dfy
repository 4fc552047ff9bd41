/** Without failures a container can be processed in every state that processing
    others leads to, so every order of processing is possible; and when all of them
    end alike. */
module Completion {
  import opened Nft
  import opened Names
  import opened Chains
  import opened Compiler
  import opened Config
  import opened Wrappers
  import opened Policy
  import opened Scope
  import opened Store
  import opened Kernel
  import opened Generate
  import opened Outputs
  import opened Ports
  import opened Build
  import opened Manager
  import opened Mappings
  import opened Engine
  import opened Order
  import opened Independence
  import opened Canonical

  predicate RuleConnected(now: Snapshot, self: Self, r: RuleConfig)
  {
    && (r.network != "" ==> FindNetwork(r.network, self.project, self.networks).Some?)
    && (r.container != "" ==> !DestinationOf(now, self, r).Refused?)
  }

  /** Every network that a rule names is one the container manages, no destination
      is refused, and it is not on the host's network alone. */
  predicate Connected(w: World, id: string)
    requires id in w.conts
  {
    && w.conts[id].networks.Some? && w.conts[id].networks.value.Keys != {HOST}
    && forall r :: r in RulesFor(w, id) ==> RuleConnected(w.now, SelfOf(w.conts[id]), r)
  }

  /** A container takes up the row of a rule that did not find it, and cannot use it. */
  ghost predicate FailingRow(w: World, s: string, d: string, r: RuleConfig)
  {
    StrayRow(w, s, d, r) && WaitOn(w.now, SelfOf(w.conts[d]), DeferredRow(SelfOf(w.conts[s]), r)).Fails?
  }

  ghost predicate NothingFails(w: World, P: set<string>, id: string)
  {
    forall s, r :: s in P ==> !FailingRow(w, s, id, r)
  }

  /** The address map exists, no owned chain is hooked or of another type, and the
      database knows the containers by their names. */
  ghost predicate Regular(w: World, fw: Fw, t: Tables)
  {
    && fw.addrs.Some? && (forall c :: c in fw.irregular ==> !Owned(c))
    && forall x :: x in t.containers && x in w.conts ==> t.containers[x] == NameOf(w, x)
  }

  // ----- the output rules can be filled -----

  lemma FillKeepsNetwork(now: Snapshot, known: set<string>, self: Self, r: RuleConfig)
    ensures var f := Fill(now, known, self, r);
            && (f.Some? ==> f.value.cfg.network == r.network)
            && (f.Some? <==> && (r.network != "" ==> FindNetwork(r.network, self.project, self.networks).Some?)
                             && (r.container != "" ==> FillWith(DestinationOf(now, self, r), known, self.id, Identified(self, r)).Some?))
  {
  }

  lemma RuleFills(w: World, id: string, known: set<string>, r: RuleConfig)
    requires ValidWorld(w) && id in w.conts && r in RulesFor(w, id) && known <= w.conts.Keys
    ensures var self, f := SelfOf(w.conts[id]), Fill(w.now, known, SelfOf(w.conts[id]), r);
            && (f.Some? <==> RuleConnected(w.now, self, r))
            && (f.Some? ==> OutputDetails(self, Collected(self.networks), f.value.cfg).Some?)
  {
    var self := SelfOf(w.conts[id]);
    ManagedIsSelf(w, id);
    CollectedNames(self.networks, r.network, self.project);
    var d := DestinationOf(w.now, self, r);
    if r.container != "" && d.Chosen? && d.cont.id in known { ChosenFacts(w, self, r); }
    FillKeepsNetwork(w.now, known, self, r);
  }

  lemma RulesFill(w: World, id: string, known: set<string>)
    requires ValidWorld(w) && id in w.conts && known <= w.conts.Keys
    ensures var self, filled := SelfOf(w.conts[id]), FillAll(w.now, known, SelfOf(w.conts[id]), RulesFor(w, id));
            && (filled.Some? <==> forall r :: r in RulesFor(w, id) ==> RuleConnected(w.now, self, r))
            && (filled.Some? ==> OutputsPossible(self, Collected(self.networks), filled.value.cfgs))
  {
    var self, rules := SelfOf(w.conts[id]), RulesFor(w, id);
    CollectContents(Fills(w.now, known, self, rules));
    forall i | 0 <= i < |rules|
      ensures var f := Fill(w.now, known, self, rules[i]);
              && (f.Some? <==> RuleConnected(w.now, self, rules[i]))
              && (f.Some? ==> OutputDetails(self, Collected(self.networks), f.value.cfg).Some?)
    {
      RuleFills(w, id, known, rules[i]);
    }
  }

  // ----- which waiting rows are in the way -----

  /** Only a stray row can make its reader fail. */
  lemma RowIsReadable(w: World, P: set<string>, id: string, row: Waiting)
    requires ValidWorld(w) && id in w.conts && NothingFails(w, P, id) && RowFrom(w, P, row) && Aliased(SelfOf(w.conts[id]), row)
    ensures !WaitOn(w.now, SelfOf(w.conts[id]), row).Fails?
  {
    if WaitOn(w.now, SelfOf(w.conts[id]), row).Fails? {
      var s :| s in P && RowOf(w, s, row);
      var r :| r in RulesFor(w, s) && row in RowsOf(w.now, SelfOf(w.conts[s]), r);
      RowsInEffect(w, s, id, r, row);
      assert FailingRow(w, s, id, r);
    }
  }

  lemma RowsReadableExactly(w: World, P: set<string>, id: string, rows: set<Waiting>)
    requires ValidWorld(w) && id in w.conts && forall row :: row in rows <==> RowFrom(w, P, row)
    ensures WaitingPossible(w.now, SelfOf(w.conts[id]), rows) <==> NothingFails(w, P, id)
  {
    var self := SelfOf(w.conts[id]);
    if NothingFails(w, P, id) {
      forall row | row in rows && Aliased(self, row) ensures !WaitOn(w.now, self, row).Fails? { RowIsReadable(w, P, id, row); }
    }
    if s, r :| s in P && FailingRow(w, s, id, r) {
      var row := DeferredRow(SelfOf(w.conts[s]), r);
      assert RowOf(w, s, row) && RowFrom(w, P, row);
    }
  }

  lemma PolicyIsBuildable(w: World, P: set<string>, id: string, t: Tables)
    requires ValidWorld(w) && id in w.conts && P <= w.conts.Keys && RowsMatch(w, P, t)
    ensures var self := SelfOf(w.conts[id]);
            Buildable(w.now, Recorded(w, id, t), self, Collected(self.networks), w.conts[id].policy)
            <==> && (forall r :: r in RulesFor(w, id) ==> RuleConnected(w.now, self, r))
                 && NothingFails(w, P + {id}, id)
  {
    var self, known := SelfOf(w.conts[id]), Recorded(w, id, t).containers.Keys;
    assert Described(w, id);
    assert known == P + {id};
    RulesFill(w, id, known);
    var filled := FillAll(w.now, known, self, RulesFor(w, id));
    if filled.Some? {
      var after := PolicyStarted(Recorded(w, id, t), id, filled.value.rows);
      RowsGrow(w, P, id, t, after);
      RowsReadableExactly(w, P + {id}, id, after.waiting);
    }
  }

  // ----- what can be built has a list of descriptions -----

  lemma {:induction false} Enumerated<T>(s: set<T>) returns (q: seq<T>)
    ensures forall x :: x in q <==> x in s
  {
    q := [];
    if s != {} {
      var x :| x in s;
      q := Enumerated(s - {x});
      q := q + [x];
    }
  }

  lemma {:induction false} OutputsEnumerated(self: Self, addrs: map<string, Key>, rules: seq<RuleConfig>) returns (q: seq<RuleDetails>)
    ensures forall rd :: rd in q <==> OutputWanted(self, addrs, rules, rd)
  {
    q := [];
    if rules != [] {
      var n := |rules| - 1;
      q := OutputsEnumerated(self, addrs, rules[..n]);
      assert rules == rules[..n] + [rules[n]];
      OutputWantedSnoc(self, addrs, rules[..n], rules[n]);
      var last := OutputDetails(self, addrs, rules[n]);
      if last.Some? {
        var more := Enumerated(last.value);
        q := q + more;
      }
    }
  }

  lemma WaitingEnumerated(now: Snapshot, self: Self, rows: set<Waiting>) returns (q: seq<RuleDetails>)
    ensures forall rd :: rd in q <==> WaitingWanted(now, self, rows, rd)
  {
    q := Enumerated(set row | row in rows && Aliased(self, row) && WaitOn(now, self, row).Edge? :: WaitOn(now, self, row).rd);
  }

  /** No description in front of the port rules drops. */
  ghost predicate FrontAllows(now: Snapshot, before: Tables, self: Self, addrs: map<string, Key>, p: PolicyLabel)
  {
    var filled := FillAll(now, before.containers.Keys, self, OutputRules(p));
    filled.Some? ==>
      forall rd :: (WaitingWanted(now, self, PolicyStarted(before, self.id, filled.value.rows).waiting, rd)
                    || OutputWanted(self, addrs, filled.value.cfgs, rd)) ==> !rd.cfg.verdict.drop
  }

  lemma FrontOfWorldAllows(w: World, P: set<string>, id: string, t: Tables)
    requires ValidWorld(w) && id in w.conts && P <= w.conts.Keys && RowsMatch(w, P, t)
    requires var self := SelfOf(w.conts[id]); Buildable(w.now, Recorded(w, id, t), self, Collected(self.networks), w.conts[id].policy)
    ensures var self := SelfOf(w.conts[id]); FrontAllows(w.now, Recorded(w, id, t), self, Collected(self.networks), w.conts[id].policy)
  {
    var self, known := SelfOf(w.conts[id]), P + {id};
    assert Recorded(w, id, t).containers.Keys == known;
    ManagedIsSelf(w, id);
    var filled := FillAll(w.now, known, self, RulesFor(w, id)).value;
    var after := PolicyStarted(Recorded(w, id, t), id, filled.rows);
    RowsGrow(w, P, id, t, after);
    forall rd | WaitingWanted(w.now, self, after.waiting, rd) || OutputWanted(self, Collected(self.networks), filled.cfgs, rd)
      ensures !rd.cfg.verdict.drop
    {
      WaitingIsIn(w, known, id, after.waiting, rd);
      OutputIsOut(w, known, id, filled.cfgs, rd);
      FrontDetailAllows(w, known, id, rd);
    }
  }

  lemma FrontDetailAllows(w: World, P: set<string>, id: string, rd: RuleDetails)
    requires ValidWorld(w) && FrontDetail(w, P, id, rd)
    ensures ValidDetails(rd) && !rd.cfg.verdict.drop
  {
    if OwnDetail(w, id, rd) { OwnIsValid(w, id, rd); } else {
      var y :| y in P && Between(w, id, y, rd);
      BetweenIsAllowing(w, id, y, rd);
    }
  }

  lemma BuildableIsBuilt(now: Snapshot, before: Tables, self: Self, addrs: map<string, Key>, p: PolicyLabel)
    returns (rds: seq<RuleDetails>, est: set<string>, after: Tables)
    requires Buildable(now, before, self, addrs, p) && FrontAllows(now, before, self, addrs, p)
    ensures Built(now, before, self, addrs, p, rds, est, after)
  {
    var filled := FillAll(now, before.containers.Keys, self, OutputRules(p)).value;
    after := PolicyStarted(before, self.id, filled.rows);
    est := filled.est + WaitingSources(now, self, after.waiting);
    var waiting := WaitingEnumerated(now, self, after.waiting);
    var output := OutputsEnumerated(self, addrs, filled.cfgs);
    rds := waiting + output + PortDetails(self, p);
    assert Front(rds, self, p) == waiting + output;
  }

  // ----- the chains that are needed exist -----

  lemma PlainResolves(fw: Fw, x: Rule)
    requires PlainRule(x)
    ensures Resolves(fw, x)
  {
    forall i | 0 <= i < |x.exprs| ensures !x.exprs[i].LookupVerdict? && (x.exprs[i].Verdict? ==> x.exprs[i].kind in {VDrop, VReturn}) {
    }
  }

  ghost predicate HasChains(fw: Fw, P: set<string>)
  {
    MAIN in fw.chains && forall x :: x in P ==> ChainName(x) in fw.chains
  }

  lemma FrontIsPlaceable(w: World, P: set<string>, id: string, fw: Fw, rd: RuleDetails, q: Placed)
    requires ValidWorld(w) && HasChains(fw, P) && id in P && FrontDetail(w, P, id, rd) && q in RulesOf(rd)
    ensures q.chain in fw.chains && Resolves(fw, q.rule)
  {
    FrontDetailAllows(w, P, id, rd);
    AllowingRulesReturn(rd);
    PlainResolves(fw, q.rule);
    assert Contributes(rd, q.chain, StripRule(q.rule));
    if OwnDetail(w, id, rd) { OwnTags(w, id, rd, q.chain, StripRule(q.rule)); } else {
      var y :| y in P && Between(w, id, y, rd);
      BetweenTags(w, id, y, rd, q.chain, StripRule(q.rule));
    }
  }

  lemma PortsArePlaceable(w: World, id: string, fw: Fw, rd: RuleDetails, q: Placed)
    requires ValidWorld(w) && id in w.conts && HasChains(fw, {id}) && rd in PortsFor(w, id) && q in RulesOf(rd)
    ensures q.chain in fw.chains && Resolves(fw, q.rule)
  {
    PortsAreOwn(w, id, rd);
    PortRuleTags(id, rd, q);
    PlainResolves(fw, q.rule);
  }

  lemma PortsAreOwn(w: World, id: string, rd: RuleDetails)
    requires ValidWorld(w) && id in w.conts && rd in PortsFor(w, id)
    ensures ValidID(id) && PortRule(id, rd)
  {
    ManagedIsSelf(w, id);
    PortDetailsArePortRules(SelfOf(w.conts[id]), w.conts[id].policy);
    var i :| 0 <= i < |PortsFor(w, id)| && PortsFor(w, id)[i] == rd;
  }

  lemma PartIsPlaceable(w: World, P: set<string>, id: string, t: Tables, rds: seq<RuleDetails>, est: set<string>, after: Tables, fw: Fw,
                        rd: RuleDetails, q: Placed)
    requires ValidWorld(w) && id in w.conts && P <= w.conts.Keys && RowsMatch(w, P, t) && Parts(w, id, t, rds, est, after)
    requires HasChains(fw, P + {id}) && rd in rds && q in RulesOf(rd)
    ensures q.chain in fw.chains && Resolves(fw, q.rule)
  {
    var front, ports := Front(rds, SelfOf(w.conts[id]), w.conts[id].policy), PortsFor(w, id);
    assert rds == front + ports;
    if rd in front {
      FrontIsIncident(w, P, id, t, rds, est, after, rd);
      FrontIsPlaceable(w, P + {id}, id, fw, rd, q);
    } else {
      PortsArePlaceable(w, id, fw, rd, q);
    }
  }

  /** With the container's chain in place, all its generated rules have a chain. */
  lemma BuiltIsPlaceable(w: World, P: set<string>, id: string, t: Tables, rds: seq<RuleDetails>, est: set<string>, after: Tables, fw: Fw)
    requires ValidWorld(w) && id in w.conts && P <= w.conts.Keys && RowsMatch(w, P, t) && Parts(w, id, t, rds, est, after)
    requires HasChains(fw, P + {id})
    ensures AllPlaceable(fw, Compiled(rds))
  {
    CompiledContents(rds);
    forall q | q in Compiled(rds) ensures q.chain in fw.chains && Resolves(fw, q.rule) {
      var i :| 0 <= i < |rds| && q in RulesOf(rds[i]);
      PartIsPlaceable(w, P, id, t, rds, est, after, fw, rds[i], q);
    }
  }

  // ----- creation is possible -----

  lemma MapIsReadable(w: World, P: set<string>, id: string, fw: Fw)
    requires ValidWorld(w) && id in w.conts && P <= w.conts.Keys && MapMatches(w, P, Mapping(fw)) && fw.addrs.Some?
    ensures MapReadable(fw)
  {
    forall k | k in fw.addrs.value ensures ReadableVerdict(fw.addrs.value[k]) {
      var x := EntryOf(w, P, Mapping(fw), id, k);
      ManagedIsSelf(w, x);
      ChainNameDeterminesID(ChainName(x), x);
    }
  }

  lemma NameIsFree(w: World, P: set<string>, id: string, fw: Fw, t: Tables)
    requires ValidWorld(w) && id in w.conts && P <= w.conts.Keys && RowsMatch(w, P, t) && Regular(w, fw, t)
    ensures NameFree(t, id, SelfOf(w.conts[id]).name)
  {
    forall x | x in t.containers && x != id ensures t.containers[x] != SelfOf(w.conts[id]).name {
      assert NameOf(w, x) != NameOf(w, id);
    }
  }

  lemma FloorKeepsRegular(fw: Fw, id: string, quarantineFirst: bool, keys: set<Key>)
    requires ValidID(id) && MapReadable(fw) && (forall c :: c in fw.irregular ==> !Owned(c)) && Displaced(Mapping(fw), id, keys) == {}
    ensures var f0 := FloorInstalled(fw, id, quarantineFirst);
            && FloorPossible(fw, id) && Remappable(f0, id, keys)
            && ChainName(id) in Remapped(f0, id, keys).chains && OwnedAreRegular(Remapped(f0, id, keys))
  {
    ChainNameDeterminesID(ChainName(id), id);
  }

  lemma FloorAndMapPossible(w: World, order: seq<string>, id: string, quarantineFirst: bool, fw: Fw, t: Tables)
    requires ValidWorld(w) && id in w.conts && StateAfter(w, order, fw, t) && Regular(w, fw, t)
    ensures var c, f0 := w.conts[id], FloorInstalled(fw, id, quarantineFirst);
            && FloorPossible(fw, id) && Remappable(f0, id, PolicyKeys(c)) && NameFree(t, id, SelfOf(c).name)
            && var f1 := Remapped(f0, id, PolicyKeys(c)); OwnedAreRegular(f1) && HasChains(f1, Processed(order) + {id})
  {
    var P := Processed(order);
    ManagedIsSelf(w, id);
    MapGrows(w, P, Mapping(fw), id);
    FloorThenMap(fw, id, quarantineFirst, PolicyKeys(w.conts[id]));
    MapIsReadable(w, P, id, fw);
    NameIsFree(w, P, id, fw, t);
    FloorKeepsRegular(fw, id, quarantineFirst, PolicyKeys(w.conts[id]));
    forall x | x in P ensures ChainName(x) in fw.chains { assert HasShape(w, order, x, fw); }
  }

  lemma InstallableExactly(w: World, P: set<string>, id: string, t: Tables, f1: Fw)
    requires ValidWorld(w) && id in w.conts && P <= w.conts.Keys && RowsMatch(w, P, t)
    requires HasChains(f1, P + {id}) && OwnedAreRegular(f1)
    ensures var self := SelfOf(w.conts[id]);
            Installable(w.now, Recorded(w, id, t), self, Collected(self.networks), w.conts[id].policy, f1)
            <==> (forall r :: r in RulesFor(w, id) ==> RuleConnected(w.now, self, r)) && NothingFails(w, P + {id}, id)
  {
    var c, self := w.conts[id], SelfOf(w.conts[id]);
    PolicyIsBuildable(w, P, id, t);
    UnbuildableIsNotInstallable(w.now, Recorded(w, id, t), self, Collected(self.networks), c.policy, f1);
    if Buildable(w.now, Recorded(w, id, t), self, Collected(self.networks), c.policy) {
      FrontOfWorldAllows(w, P, id, t);
      var rds, est, after := BuildableIsBuilt(w.now, Recorded(w, id, t), self, Collected(self.networks), c.policy);
      BuiltIsPlaceable(w, P, id, t, rds, est, after, f1);
      ManagedIsSelf(w, id);
    }
  }

  lemma DescribedIsManageable(w: World, id: string)
    requires ValidWorld(w) && id in w.conts
    ensures var c := w.conts[id];
            c.id == id && c.networks.Some? && c.hasConfig && ValidScope(c.scopeLabel, c.project, c.networks.value)
  {
    assert Described(w, id);
  }

  lemma CreatableIfInstallable(now: Snapshot, c: Container, quarantineFirst: bool, fw: Fw, t: Tables)
    requires c.networks.Some? && c.hasConfig && ValidScope(c.scopeLabel, c.project, c.networks.value)
    requires FloorPossible(fw, c.id) && Remappable(FloorInstalled(fw, c.id, quarantineFirst), c.id, PolicyKeys(c))
    requires NameFree(t, c.id, SelfOf(c).name)
    ensures var self, keys := SelfOf(c), PolicyKeys(c);
            Creatable(now, c, quarantineFirst, fw, t)
            <==> && c.networks.value.Keys != {HOST}
                 && Installable(now, MetadataReplaced(t, c.id, self.name, c.service, keys), self, Collected(self.networks), c.policy,
                                Remapped(FloorInstalled(fw, c.id, quarantineFirst), c.id, keys))
  {
  }

  /** Without failures, processing a container succeeds, whichever others were
      processed before and whether it was itself, exactly when it is connected to
      every network its rules name, none of its destinations is refused, and no
      stray row is in its way. */
  lemma CreatableExactly(w: World, order: seq<string>, id: string, quarantineFirst: bool, fw: Fw, t: Tables)
    requires ValidWorld(w) && id in w.conts && StateAfter(w, order, fw, t) && Regular(w, fw, t)
    ensures Creatable(w.now, w.conts[id], quarantineFirst, fw, t) <==> Connected(w, id) && NothingFails(w, Processed(order) + {id}, id)
  {
    DescribedIsManageable(w, id);
    FloorAndMapPossible(w, order, id, quarantineFirst, fw, t);
    CreatableIfInstallable(w.now, w.conts[id], quarantineFirst, fw, t);
    InstallableExactly(w, Processed(order), id, t, Remapped(FloorInstalled(fw, id, quarantineFirst), id, PolicyKeys(w.conts[id])));
  }

  // ----- every order of processing is possible -----

  lemma CreatableIsCreated(now: Snapshot, c: Container, fw: Fw, t: Tables) returns (fw': Fw, t': Tables)
    requires Creatable(now, c, false, fw, t)
    ensures Created(now, c, false, fw, t, fw', t')
  {
    var self := SelfOf(c);
    var f1 := Remapped(FloorInstalled(fw, c.id, false), c.id, PolicyKeys(c));
    var recorded := MetadataReplaced(t, c.id, self.name, c.service, PolicyKeys(c));
    var rds, est, after :| && Built(now, recorded, self, Collected(self.networks), c.policy, rds, est, after)
                           && Replaceable(f1, self.id, Compiled(rds));
    fw', t' := PolicyReplaced(f1, c.id, Compiled(rds)), EstAdded(after, c.id, est);
    AppliedIsCreated(now, c, false, fw, t, fw', t', rds);
  }

  lemma CreatedIsRecorded(now: Snapshot, c: Container, quarantineFirst: bool, fw: Fw, t: Tables, fw': Fw, t': Tables)
    requires Created(now, c, quarantineFirst, fw, t, fw', t')
    ensures t'.containers == t.containers[c.id := SelfOf(c).name] && fw'.irregular == fw.irregular && fw'.addrs.Some?
  {
  }

  lemma CreatedStaysRegular(w: World, id: string, quarantineFirst: bool, fw: Fw, t: Tables, fw': Fw, t': Tables)
    requires ValidWorld(w) && id in w.conts && Regular(w, fw, t)
    requires Created(w.now, w.conts[id], quarantineFirst, fw, t, fw', t')
    ensures Regular(w, fw', t')
  {
    DescribedIsManageable(w, id);
    CreatedIsRecorded(w.now, w.conts[id], quarantineFirst, fw, t, fw', t');
  }

  /** All containers can be processed, whatever was processed before. */
  ghost predicate Processable(w: World)
  {
    forall id :: id in w.conts ==> Connected(w, id) && NothingFails(w, w.conts.Keys, id)
  }

  lemma OneMoreProcessed(w: World, order: seq<string>, id: string, before: Moment) returns (after: Moment)
    requires ValidWorld(w) && id in w.conts && Connected(w, id) && NothingFails(w, w.conts.Keys, id)
    requires StateAfter(w, order, before.fw, before.t) && Regular(w, before.fw, before.t)
    ensures StepOf(w, id, before, after) && Regular(w, after.fw, after.t)
  {
    assert NothingFails(w, Processed(order) + {id}, id);
    CreatableExactly(w, order, id, false, before.fw, before.t);
    var fw', t' := CreatableIsCreated(w.now, w.conts[id], before.fw, before.t);
    after := Moment(fw', t');
    CreatedStaysRegular(w, id, false, before.fw, before.t, fw', t');
  }

  /** The containers can then be processed in every order, with every repetition;
      what each order ends in is described by HistoryIsCanonical. */
  lemma {:induction false} EveryOrderCompletes(w: World, order: seq<string>, start: Moment) returns (ms: seq<Moment>)
    requires ValidWorld(w) && Processable(w) && forall i :: 0 <= i < |order| ==> order[i] in w.conts
    requires FreshBase(start.fw, start.t) && Regular(w, start.fw, start.t)
    ensures IsHistory(w, order, ms) && ms[0] == start && Regular(w, ms[|order|].fw, ms[|order|].t)
  {
    if order == [] {
      ms := [start];
    } else {
      var n := |order| - 1;
      var front := EveryOrderCompletes(w, order[..n], start);
      HistoryIsCanonical(w, order[..n], front);
      var next := OneMoreProcessed(w, order[..n], order[n], front[n]);
      ms := front + [next];
      assert ms[..n + 1] == front;
    }
  }

  function FreshStart(): Moment
  {
    Moment(Fw(map[MAIN := [SrcDispatcher(), DstDispatcher()]], {}, Some(map[])), Tables(map[], map[], {}, {}, {}))
  }

  lemma FreshStartIsRegular(w: World)
    ensures FreshBase(FreshStart().fw, FreshStart().t) && Regular(w, FreshStart().fw, FreshStart().t)
  {
  }
}
