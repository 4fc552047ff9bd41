/** Policy generation of one container, up to the rules that are to be installed. */
module Build {
  import opened Names
  import opened Compiler
  import opened Config
  import opened Wrappers
  import opened Policy
  import opened Scope
  import opened Store
  import opened Generate
  import opened Outputs
  import opened Ports

  /** The rules label: absent, unreadable, or output rules and what is said of the
      published ports. */
  datatype PolicyLabel = NoPolicy | BadPolicy | Rules(output: seq<RuleConfig>, published: Publication)

  /** The fields the label cannot set. */
  predicate Unresolved(r: RuleConfig)
  {
    !r.skip && r.resolvedContainerID == ""
  }

  /** What the label's parsers guarantee. */
  predicate ParsedPolicy(p: PolicyLabel)
  {
    p.Rules? ==> forall i :: 0 <= i < |p.output| ==> ValidParts(p.output[i]) && !p.output[i].verdict.drop && Unresolved(p.output[i])
  }

  ghost predicate DockerIDs(now: Snapshot)
  {
    forall k :: k in now.conts ==> ValidID(now.conts[k].id)
  }

  /** Stored IDs are Docker IDs; a stored rule never drops. */
  ghost predicate RowsSound(t: Tables)
  {
    (forall id :: id in t.containers ==> ValidID(id)) && forall w :: w in t.waiting ==> !w.rule.verdict.drop
  }

  function OutputRules(p: PolicyLabel): seq<RuleConfig>
  {
    if p.Rules? then Flatten(p.output) else []
  }

  /** The port rules can be generated. */
  predicate Publishable(self: Self, p: PolicyLabel)
  {
    p.Rules? ==> PublishedRules(self, p.published).Some?
  }

  function PortDetails(self: Self, p: PolicyLabel): seq<RuleDetails>
  {
    if p.Rules? && PublishedRules(self, p.published).Some? then PublishedRules(self, p.published).value else []
  }

  lemma PortDetailsArePortRules(self: Self, p: PolicyLabel)
    requires ValidID(self.id)
    ensures forall i :: 0 <= i < |PortDetails(self, p)| ==> PortRule(self.id, PortDetails(self, p)[i])
  {
    if p.Rules? && PublishedRules(self, p.published).Some? { PublishedArePortRules(self, p.published); }
  }

  predicate Readable(p: PolicyLabel)
  {
    !p.BadPolicy? && (p.Rules? ==> FirstError(p.output).None?)
  }

  /** The descriptions in front of the port rules. */
  function Front(rds: seq<RuleDetails>, self: Self, p: PolicyLabel): seq<RuleDetails>
  {
    if |PortDetails(self, p)| <= |rds| then rds[..|rds| - |PortDetails(self, p)|] else rds
  }

  /** A built policy: the descriptions `rds` are the container's waiting edges and
      its output rules, which only let packets through, and behind them its port
      rules in their order; `after` is the transaction's state. */
  ghost predicate Built(now: Snapshot, before: Tables, self: Self, addrs: map<string, Key>, p: PolicyLabel,
                        rds: seq<RuleDetails>, est: set<string>, after: Tables)
  {
    && Readable(p) && Publishable(self, p)
    && var filled := FillAll(now, before.containers.Keys, self, OutputRules(p));
       && filled.Some?
       && after == PolicyStarted(before, self.id, filled.value.rows)
       && WaitingPossible(now, self, after.waiting)
       && OutputsPossible(self, addrs, filled.value.cfgs)
       && est == filled.value.est + WaitingSources(now, self, after.waiting)
       && rds == Front(rds, self, p) + PortDetails(self, p)
       && (forall rd :: rd in Front(rds, self, p) <==>
             WaitingWanted(now, self, after.waiting, rd) || OutputWanted(self, addrs, filled.value.cfgs, rd))
       && forall rd :: rd in Front(rds, self, p) ==> !rd.cfg.verdict.drop
  }

  // ----- every description is well placed -----

  lemma {:induction false} ViableAreInspected(conts: map<string, Inspect>, matches: seq<Summary>, network: string,
                                              srcName: string, src: Option<Endpoint>)
    ensures var t := Tallied(conts, matches, network, srcName, src);
            forall v :: v in t.viable ==> exists m :: m in matches && LookAt(conts, m.id, network, srcName, src) == Viable(v.0, v.1)
  {
    if matches != [] {
      var n := |matches| - 1;
      ViableAreInspected(conts, matches[..n], network, srcName, src);
      assert matches == matches[..n] + [matches[n]];
      forall v | v in Tallied(conts, matches, network, srcName, src).viable
        ensures exists m :: m in matches && LookAt(conts, m.id, network, srcName, src) == Viable(v.0, v.1)
      {
        if v in Tallied(conts, matches[..n], network, srcName, src).viable {
          var m :| m in matches[..n] && LookAt(conts, m.id, network, srcName, src) == Viable(v.0, v.1);
          assert m in matches;
        } else {
          assert LookAt(conts, matches[n].id, network, srcName, src) == Viable(v.0, v.1);
        }
      }
    }
  }

  /** A chosen destination is one of the best name matches, inspected and viable. */
  lemma ChosenIsViable(now: Snapshot, self: Self, r: RuleConfig)
    ensures var d := DestinationOf(now, self, r);
            d.Chosen? ==> exists m :: && m in BestMatches(now.listed, r.container, self.project)
                                     && var src := SourceEndpoint(self, r);
                                        LookAt(now.conts, m.id, r.network, src.0, src.1) == Viable(d.cont, d.endpoint)
  {
    var src := SourceEndpoint(self, r);
    var matches := BestMatches(now.listed, r.container, self.project);
    ViableAreInspected(now.conts, matches, r.network, src.0, src.1);
    var d := DestinationOf(now, self, r);
    if d.Chosen? {
      var t := Tallied(now.conts, matches, r.network, src.0, src.1);
      assert t.viable[0] in t.viable;
      var m :| m in matches && LookAt(now.conts, m.id, r.network, src.0, src.1) == Viable(t.viable[0].0, t.viable[0].1);
    }
  }

  /** A rule resolves only to a container that is listed and running, enabled, has
      a valid scope, matches the name at least as well as any other, and manages
      the endpoint on the very network of the source's. */
  lemma ChosenDestinationIsSound(now: Snapshot, self: Self, r: RuleConfig)
    requires DestinationOf(now, self, r).Chosen?
    ensures var d, src := DestinationOf(now, self, r), SourceEndpoint(self, r);
            exists m :: && m in now.listed && m.id in now.conts && d.cont == now.conts[m.id]
                        && !d.cont.stopped && Sound(d.cont) && NameRank(r.container, self.project, m) > 0
                        && (forall x :: x in now.listed ==> NameRank(r.container, self.project, x) <= NameRank(r.container, self.project, m))
                        && var dn := FindNetwork(r.network, d.cont.project, Managed(d.cont));
                           && dn.Some? && Managed(d.cont)[dn.value] == Some(d.endpoint)
                           && src.1.Some? && OneNetwork(src.0, src.1.value, dn.value, d.endpoint)
  {
    var d, src := DestinationOf(now, self, r), SourceEndpoint(self, r);
    ChosenIsViable(now, self, r);
    BestMatchesContents(now.listed, r.container, self.project);
    var m :| m in BestMatches(now.listed, r.container, self.project)
             && LookAt(now.conts, m.id, r.network, src.0, src.1) == Viable(d.cont, d.endpoint);
    assert m in now.listed && m.id in now.conts;
  }

  /** The viable matches among the first ones are never forgotten. */
  lemma {:induction false} ViableCounted(conts: map<string, Inspect>, matches: seq<Summary>, network: string, srcName: string,
                                         src: Option<Endpoint>, i: nat, least: nat)
    requires i < |matches| && LookAt(conts, matches[i].id, network, srcName, src).Viable?
    requires |Tallied(conts, matches[..i], network, srcName, src).viable| >= least
    ensures |Tallied(conts, matches, network, srcName, src).viable| >= least + 1
  {
    var n := |matches| - 1;
    if i < n {
      assert matches[..n][..i] == matches[..i];
      ViableCounted(conts, matches[..n], network, srcName, src, i, least);
    }
  }

  /** Two viable matches of the best rank are refused, never chosen between. */
  lemma AmbiguityIsRefused(now: Snapshot, self: Self, r: RuleConfig, i: nat, j: nat)
    requires var matches, src := BestMatches(now.listed, r.container, self.project), SourceEndpoint(self, r);
             && i < j < |matches|
             && LookAt(now.conts, matches[i].id, r.network, src.0, src.1).Viable?
             && LookAt(now.conts, matches[j].id, r.network, src.0, src.1).Viable?
    ensures DestinationOf(now, self, r).Refused?
  {
    var matches, src := BestMatches(now.listed, r.container, self.project), SourceEndpoint(self, r);
    ViableCounted(now.conts, matches[..j], r.network, src.0, src.1, i, 0);
    ViableCounted(now.conts, matches, r.network, src.0, src.1, j, 1);
  }

  /** A filled rule is still valid; a destination that is not skipped is a container. */
  ghost predicate FilledRule(r: RuleConfig)
  {
    ValidRule(r) && (r.container != "" && !r.skip ==> ValidID(r.resolvedContainerID))
  }

  lemma FillWithIsValid(d: Destination, known: set<string>, id: string, cfg: RuleConfig)
    requires ValidRule(cfg) && FillWith(d, known, id, cfg).Some? && (d.Chosen? ==> ValidID(d.cont.id))
    ensures FilledRule(FillWith(d, known, id, cfg).value.cfg)
    ensures forall w :: w in FillWith(d, known, id, cfg).value.rows ==> w.src == id && !w.rule.verdict.drop
  {
    var r := FillWith(d, known, id, cfg).value.cfg;
    assert Ips(r) == Ips(cfg) || (d.Chosen? && d.endpoint.ip.V4? && Ips(r) == [Addr(d.endpoint.ip.addr)]);
    assert ValidParts(r);
  }

  lemma FilledIsValid(now: Snapshot, known: set<string>, self: Self, r: RuleConfig)
    requires DockerIDs(now) && ValidRule(r) && Fill(now, known, self, r).Some?
    ensures FilledRule(Fill(now, known, self, r).value.cfg)
    ensures forall w :: w in Fill(now, known, self, r).value.rows ==> w.src == self.id && !w.rule.verdict.drop
  {
    if r.container != "" {
      ChosenIsViable(now, self, r);
      assert Ips(Identified(self, r)) == Ips(r);
      FillWithIsValid(DestinationOf(now, self, r), known, self.id, Identified(self, r));
    }
  }

  lemma AllFilledValid(now: Snapshot, known: set<string>, self: Self, rules: seq<RuleConfig>)
    requires DockerIDs(now) && (forall i :: 0 <= i < |rules| ==> ValidRule(rules[i])) && FillAll(now, known, self, rules).Some?
    ensures forall i :: 0 <= i < |rules| ==> FilledRule(FillAll(now, known, self, rules).value.cfgs[i])
    ensures forall w :: w in FillAll(now, known, self, rules).value.rows ==> w.src == self.id && !w.rule.verdict.drop
  {
    CollectContents(Fills(now, known, self, rules));
    forall i | 0 <= i < |rules|
      ensures FilledRule(FillAll(now, known, self, rules).value.cfgs[i])
      ensures forall w :: w in Fill(now, known, self, rules[i]).value.rows ==> w.src == self.id && !w.rule.verdict.drop
    {
      FilledIsValid(now, known, self, rules[i]);
    }
  }

  lemma {:induction false} FlattenedParts(rules: seq<RuleConfig>)
    requires forall i :: 0 <= i < |rules| ==> ValidParts(rules[i]) && !rules[i].verdict.drop && Unresolved(rules[i])
    ensures forall i :: 0 <= i < |Flatten(rules)| ==>
              ValidParts(Flatten(rules)[i]) && !Flatten(rules)[i].verdict.drop && Unresolved(Flatten(rules)[i])
  {
    if rules != [] {
      FlattenedParts(rules[..|rules| - 1]);
      var last := rules[|rules| - 1];
      forall i | 0 <= i < |Expand(last)|
        ensures ValidParts(Expand(last)[i]) && !Expand(last)[i].verdict.drop && Unresolved(Expand(last)[i])
      {
        assert Ips(Expand(last)[i]) == Ips(last);
      }
    }
  }

  lemma OutputRulesValid(id: string, p: PolicyLabel)
    requires ParsedPolicy(p) && Readable(p)
    ensures forall i :: 0 <= i < |OutputRules(p)| ==> ValidRule(OutputRules(p)[i]) && Unresolved(OutputRules(p)[i])
  {
    if p.Rules? {
      FlattenedParts(p.output);
      NoErrorMeansAllValid(p.output);
      FlattenedRulesValid(p.output);
    }
  }

  lemma OutputWellPlaced(self: Self, addrs: map<string, Key>, rules: seq<RuleConfig>, rd: RuleDetails)
    requires ValidID(self.id) && ValidKeys(addrs) && (forall i :: 0 <= i < |rules| ==> FilledRule(rules[i]))
    requires OutputWanted(self, addrs, rules, rd)
    ensures WellPlaced(self.id, rd)
  {
    var i :| 0 <= i < |rules| && OutputDetails(self, addrs, rules[i]).Some? && rd in OutputDetails(self, addrs, rules[i]).value;
    assert FilledRule(rules[i]);
    DetailsValid(self, addrs, rules[i]);
  }

  lemma WaitingWellPlaced(now: Snapshot, self: Self, t: Tables, rd: RuleDetails)
    requires ValidID(self.id) && RowsSound(t) && References(t) && WaitingWanted(now, self, t.waiting, rd)
    ensures WellPlaced(self.id, rd)
  {
    var w :| w in t.waiting && Aliased(self, w) && WaitOn(now, self, w) == Edge(rd);
    EdgeIsValid(now, self, w);
  }

  lemma BuiltIsWellPlaced(now: Snapshot, before: Tables, self: Self, addrs: map<string, Key>, p: PolicyLabel,
                          rds: seq<RuleDetails>, est: set<string>, after: Tables)
    requires Built(now, before, self, addrs, p, rds, est, after) && ParsedPolicy(p)
    requires DockerIDs(now) && RowsSound(before) && References(after) && ValidID(self.id) && ValidKeys(addrs)
    ensures AllWellPlaced(self.id, rds) && RowsSound(after)
  {
    OutputRulesValid(self.id, p);
    AllFilledValid(now, before.containers.Keys, self, OutputRules(p));
    PortDetailsArePortRules(self, p);
    var filled := FillAll(now, before.containers.Keys, self, OutputRules(p)).value;
    forall i | 0 <= i < |rds| ensures WellPlaced(self.id, rds[i]) {
      assert rds[i] in rds;
      if WaitingWanted(now, self, after.waiting, rds[i]) {
        WaitingWellPlaced(now, self, after, rds[i]);
      } else if OutputWanted(self, addrs, filled.cfgs, rds[i]) {
        OutputWellPlaced(self, addrs, filled.cfgs, rds[i]);
      }
    }
  }

  // ----- generation -----

  lemma CompiledAppend(a: seq<RuleDetails>, b: seq<RuleDetails>)
    ensures Compiled(a + b) == Compiled(a) + Compiled(b)
  {
    MapAppend(RulesOf, a, b);
    ConcatAppend(Map(RulesOf, a), Map(RulesOf, b));
  }

  method CompileAll(ghost id: string, rds: seq<RuleDetails>) returns (r: seq<Placed>)
    requires id != "" && forall i :: 0 <= i < |rds| ==> PortRule(id, rds[i])
    ensures r == Compiled(rds)
  {
    r := [];
    for i := 0 to |rds|
      invariant r == Compiled(rds[..i])
    {
      OneMoreCompiled(id, rds, i);
      r := r + CreateNFTRules(rds[i]).value;
    }
    assert rds[..|rds|] == rds;
  }

  lemma OneMoreCompiled(id: string, rds: seq<RuleDetails>, i: nat)
    requires id != "" && i < |rds| && PortRule(id, rds[i])
    ensures PlainVerdict(rds[i].cfg.verdict) && CreateNFTRules(rds[i]).Some?
    ensures Compiled(rds[..i + 1]) == Compiled(rds[..i]) + CreateNFTRules(rds[i]).value
  {
    assert rds[..i + 1] == rds[..i] + [rds[i]];
    CompiledSnoc(rds[..i], rds[i]);
    PortRuleCompiles(id, rds[i]);
  }

  lemma PortRuleCompiles(id: string, rd: RuleDetails)
    requires id != "" && PortRule(id, rd)
    ensures PlainVerdict(rd.cfg.verdict) && CreateNFTRules(rd).Some?
  {
    if IsLocalhostDrop(id, rd) {
      var proto: Protocol, port: nat :| port <= MAX_PORT && rd == LocalhostDrop(MAIN, proto, port, id);
      LocalhostDropIsSafe(MAIN, proto, port, id);
    } else {
      ValidDetailsCompile(rd);
    }
  }

  /** Neither a waiting edge nor an output rule drops. */
  lemma FrontReturns(now: Snapshot, self: Self, addrs: map<string, Key>, rows: set<Waiting>, cfgs: seq<RuleConfig>)
    requires (forall w :: w in rows ==> !w.rule.verdict.drop) && forall i :: 0 <= i < |cfgs| ==> ValidRule(cfgs[i])
    ensures forall rd :: WaitingWanted(now, self, rows, rd) || OutputWanted(self, addrs, cfgs, rd) ==> !rd.cfg.verdict.drop
  {
  }

  /** The three generators, one after the other. */
  method GenerateRules(docker: Docker, db: Database, self: Self, addrs: map<string, Key>, cfgs: seq<RuleConfig>, p: PolicyLabel)
    returns (r: Option<seq<Placed>>, est: set<string>, ghost rds: seq<RuleDetails>)
    requires docker.faults == db.faults && ParsedPolicy(p) && ValidID(self.id) && ValidKeys(addrs)
    requires forall i :: 0 <= i < |cfgs| ==> ValidRule(cfgs[i])
    requires forall w :: w in db.work.waiting ==> !w.rule.verdict.drop
    modifies db.faults
    ensures r.Some? ==> r.value == Compiled(rds) && Publishable(self, p)
    ensures r.Some? ==> WaitingPossible(docker.now, self, db.work.waiting) && OutputsPossible(self, addrs, cfgs)
    ensures r.Some? ==> est == WaitingSources(docker.now, self, db.work.waiting)
    ensures r.Some? ==> rds == Front(rds, self, p) + PortDetails(self, p)
    ensures r.Some? ==> forall rd :: rd in Front(rds, self, p) <==>
              WaitingWanted(docker.now, self, db.work.waiting, rd) || OutputWanted(self, addrs, cfgs, rd)
    ensures r.Some? ==> forall rd :: rd in Front(rds, self, p) ==> !rd.cfg.verdict.drop
    ensures old(db.faults.script) == [] ==>
              db.faults.script == []
              && (r.Some? <==> && WaitingPossible(docker.now, self, db.work.waiting) && OutputsPossible(self, addrs, cfgs)
                               && Publishable(self, p))
  {
    var waitingRules, waitingDetails, sources := CreateWaitingContainerRules(docker, db, self);
    est, rds := sources, [];
    if waitingRules.None? { return None, est, rds; }
    var outputRules, outputDetails := CreateOutputRules(self, cfgs, addrs);
    if outputRules.None? { return None, est, rds; }
    var published: Option<seq<RuleDetails>> := Some([]);
    if p.Rules? { published := CreatePortMappingRules(self, p.published); }
    if published.None? { return None, est, rds; }
    assert published.value == PortDetails(self, p);
    PortDetailsArePortRules(self, p);
    var portMapRules := CompileAll(self.id, published.value);
    rds := waitingDetails + outputDetails + PortDetails(self, p);
    CompiledAppend(waitingDetails, outputDetails);
    CompiledAppend(waitingDetails + outputDetails, PortDetails(self, p));
    assert Front(rds, self, p) == waitingDetails + outputDetails;
    FrontReturns(docker.now, self, addrs, db.work.waiting, cfgs);
    r := Some(waitingRules.value + outputRules.value + portMapRules);
  }

  /** When a policy can be built at all. */
  ghost predicate Buildable(now: Snapshot, before: Tables, self: Self, addrs: map<string, Key>, p: PolicyLabel)
  {
    && Readable(p) && Publishable(self, p)
    && var filled := FillAll(now, before.containers.Keys, self, OutputRules(p));
       && filled.Some? && OutputsPossible(self, addrs, filled.value.cfgs)
       && WaitingPossible(now, self, PolicyStarted(before, self.id, filled.value.rows).waiting)
  }

  /** Read the label, open the transaction, forget the old relationships, and
      fill the output rules. */
  method StartPolicy(docker: Docker, db: Database, self: Self, p: PolicyLabel) returns (filled: Option<FilledPolicy>)
    requires docker.faults == db.faults && self.id in db.tables.containers
    modifies db`work, db.faults
    ensures filled.Some? ==> Readable(p) && filled == FillAll(docker.now, db.tables.containers.Keys, self, OutputRules(p))
    ensures filled.Some? ==> db.work == PolicyStarted(db.tables, self.id, filled.value.rows)
    ensures old(db.faults.script) == [] ==>
              db.faults.script == []
              && filled == if Readable(p) then FillAll(docker.now, db.tables.containers.Keys, self, OutputRules(p)) else None
  {
    var rules: seq<RuleConfig> := [];
    if p.BadPolicy? { return None; }
    if p.Rules? {
      var normalized := NormalizeOutput(p.output);
      if normalized.Err? { return None; }
      rules := normalized.value;
    }
    var ok := db.Begin();
    if !ok { return None; }
    ok := ResetContainerPolicy(db, self.id);
    if !ok { return None; }
    filled := PopulateOutputRules(docker, db, rules, self);
  }

  function PolicyStarted(t: Tables, id: string, rows: set<Waiting>): Tables
  {
    PolicyReset(t, id).(waiting := PolicyReset(t, id).waiting + rows)
  }

  /** The part of createContainerRules between the metadata commit and the
      authoritative replacement, in one transaction. */
  method BuildPolicy(docker: Docker, db: Database, self: Self, addrs: map<string, Key>, p: PolicyLabel)
    returns (r: Option<seq<Placed>>, est: set<string>, ghost rds: seq<RuleDetails>)
    requires docker.faults == db.faults && self.id in db.tables.containers && ParsedPolicy(p)
    requires DockerIDs(docker.now) && RowsSound(db.tables) && ValidID(self.id) && ValidKeys(addrs)
    modifies db`work, db.faults
    ensures r.Some? ==> r.value == Compiled(rds) && Built(docker.now, db.tables, self, addrs, p, rds, est, db.work)
    ensures old(db.faults.script) == [] ==>
              db.faults.script == [] && (r.Some? <==> Buildable(docker.now, db.tables, self, addrs, p))
  {
    est, rds := {}, [];
    var filled := StartPolicy(docker, db, self, p);
    if filled.None? { return None, est, rds; }
    StartedIsSound(docker.now, db.tables, self, p);
    r, est, rds := GenerateRules(docker, db, self, addrs, filled.value.cfgs, p);
    est := filled.value.est + est;
  }

  lemma StartedIsSound(now: Snapshot, t: Tables, self: Self, p: PolicyLabel)
    requires ParsedPolicy(p) && Readable(p) && DockerIDs(now) && RowsSound(t)
    ensures var filled := FillAll(now, t.containers.Keys, self, OutputRules(p));
            filled.Some? ==>
              && (forall i :: 0 <= i < |filled.value.cfgs| ==> FilledRule(filled.value.cfgs[i]))
              && RowsSound(PolicyStarted(t, self.id, filled.value.rows))
  {
    OutputRulesValid(self.id, p);
    var filled := FillAll(now, t.containers.Keys, self, OutputRules(p));
    if filled.Some? { AllFilledValid(now, t.containers.Keys, self, OutputRules(p)); }
  }

  // ----- when a built policy can be recorded -----

  lemma {:induction false} CollectedPeers(fs: seq<Option<Filled>>, known: set<string>)
    requires forall i :: 0 <= i < |fs| && fs[i].Some? ==> fs[i].value.est <= known
    ensures Collect(fs).Some? ==> Collect(fs).value.est <= known
  {
    if fs != [] { CollectedPeers(fs[..|fs| - 1], known); }
  }

  lemma FilledPeersKnown(now: Snapshot, known: set<string>, self: Self, r: RuleConfig)
    ensures Fill(now, known, self, r).Some? ==> Fill(now, known, self, r).value.est <= known
  {
  }

  /** The relationships of a built policy refer to recorded containers only, so
      the foreign keys never refuse them. */
  lemma BuiltPeersExist(now: Snapshot, before: Tables, self: Self, addrs: map<string, Key>, p: PolicyLabel,
                        rds: seq<RuleDetails>, est: set<string>, after: Tables)
    requires Built(now, before, self, addrs, p, rds, est, after) && References(after) && self.id in before.containers
    ensures PeersExist(after, self.id, est)
  {
    var known, rules := before.containers.Keys, OutputRules(p);
    var fs := Fills(now, known, self, rules);
    forall i | 0 <= i < |fs| && fs[i].Some? ensures fs[i].value.est <= known { FilledPeersKnown(now, known, self, rules[i]); }
    CollectedPeers(fs, known);
  }
}
