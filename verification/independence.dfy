/** A fixed state of Docker, and the edges between two containers as each of them
    installs them: the source when its output rules are generated, the destination
    from the rows the source stored. Where the two differ, the later one decides. */
module Independence {
  import opened Nft
  import opened Names
  import opened Compiler
  import opened Config
  import opened Wrappers
  import opened Policy
  import opened Scope
  import opened Store
  import opened Generate
  import opened Outputs
  import opened Build
  import opened Manager
  import opened Order

  /** The enabled containers by ID, and Docker's answers, also about others. */
  datatype World = World(conts: map<string, Container>, now: Snapshot)

  function NameOf(w: World, id: string): string
    requires id in w.conts
  {
    StripName(w.conts[id].name)
  }

  function RulesFor(w: World, id: string): seq<RuleConfig>
    requires id in w.conts
  {
    OutputRules(w.conts[id].policy)
  }

  /** A container with a valid policy and scope, inspected as it is. */
  ghost predicate Described(w: World, id: string)
    requires id in w.conts
  {
    var c := w.conts[id];
    && Proper(c) && c.id == id && c.hasConfig && c.networks.Some? && ValidScope(c.scopeLabel, c.project, c.networks.value)
    && Readable(c.policy) && Publishable(SelfOf(c), c.policy)
    && id in w.now.conts
    && var i := w.now.conts[id];
       && i.hasConfig && i.enabled == Some(true)
       && i.project == c.project && i.scopeLabel == c.scopeLabel && i.networks == c.networks
  }

  /** Valid containers with distinct names and addresses, and no self-edges. */
  ghost predicate ValidWorld(w: World)
  {
    && (forall k :: k in w.now.conts ==> k != "" && w.now.conts[k].id == k)
    && (forall id {:trigger Described(w, id)} :: id in w.conts ==> Described(w, id))
    && (forall a, b {:trigger NameOf(w, a), NameOf(w, b)} :: a in w.conts && b in w.conts && a != b ==> NameOf(w, a) != NameOf(w, b))
    && (forall a, b {:trigger PolicyKeys(w.conts[a]), PolicyKeys(w.conts[b])} :: a in w.conts && b in w.conts && a != b ==>
          PolicyKeys(w.conts[a]) !! PolicyKeys(w.conts[b]))
    && forall id, rd :: !OutDetail(w, id, id, rd) && !InDetail(w, id, id, rd)
  }

  // ----- from the source's side -----

  function SourceKey(self: Self, r: RuleConfig): Key
  {
    var addrs := Collected(self.networks);
    var n := FindNetwork(r.network, self.project, addrs);
    if n.None? then [] else addrs[n.value]
  }

  /** The rule with its destination's identity and address. */
  function Resolved(self: Self, r: RuleConfig, c: Inspect, a: Addr32): RuleConfig
  {
    Identified(self, r).(resolvedContainerID := c.id, resolvedContainerName := StripName(c.name), ips := Some([Addr(a)]))
  }

  /** The rule of `self` is an edge to container `d`. */
  ghost predicate EdgeRule(now: Snapshot, self: Self, r: RuleConfig, d: string, rd: RuleDetails)
  {
    && r.container != ""
    && var dest := DestinationOf(now, self, r);
       && dest.Chosen? && dest.cont.id == d && dest.endpoint.ip.V4?
       && rd == OutputEdge(self, Resolved(self, r, dest.cont, dest.endpoint.ip.addr), SourceKey(self, r))
  }

  /** An edge that the source `s` installs when `d` is known. */
  ghost predicate OutDetail(w: World, s: string, d: string, rd: RuleDetails)
  {
    s in w.conts && d in w.conts && exists r :: r in RulesFor(w, s) && EdgeRule(w.now, SelfOf(w.conts[s]), r, d, rd)
  }

  /** The rule names no container and gives the description. */
  ghost predicate OwnRule(self: Self, r: RuleConfig, rd: RuleDetails)
  {
    && r.container == "" && OutputDetails(self, Collected(self.networks), r).Some?
    && rd in OutputDetails(self, Collected(self.networks), r).value
  }

  /** A rule of the container that names no other. */
  ghost predicate OwnDetail(w: World, id: string, rd: RuleDetails)
  {
    id in w.conts && exists r :: r in RulesFor(w, id) && OwnRule(SelfOf(w.conts[id]), r, rd)
  }

  // ----- from the destination's side -----

  function DeferredRow(self: Self, r: RuleConfig): Waiting
  {
    Waiting(self.id, r.container, Persisted(Identified(self, r)))
  }

  function ResolvedRow(self: Self, r: RuleConfig, c: Inspect): Waiting
  {
    Waiting(self.id, r.container,
            Persisted(Identified(self, r).(resolvedContainerID := c.id, resolvedContainerName := StripName(c.name))))
  }

  /** The row a rule leaves for its destination. */
  function RowsOf(now: Snapshot, self: Self, r: RuleConfig): set<Waiting>
  {
    if r.container == "" then {}
    else
      match DestinationOf(now, self, r)
      case Refused => {}
      case Deferred => {DeferredRow(self, r)}
      case Chosen(c, e) => {ResolvedRow(self, r, c)}
  }

  ghost predicate RowOf(w: World, s: string, row: Waiting)
  {
    s in w.conts && exists r :: r in RulesFor(w, s) && row in RowsOf(w.now, SelfOf(w.conts[s]), r)
  }

  /** The row was left by a rule of a container in `P`. */
  ghost predicate RowFrom(w: World, P: set<string>, row: Waiting)
  {
    exists s :: s in P && RowOf(w, s, row)
  }

  /** An edge from `s` that the destination `d` installs when `s` is known. */
  ghost predicate InDetail(w: World, s: string, d: string, rd: RuleDetails)
  {
    && s in w.conts && d in w.conts
    && exists row :: RowOf(w, s, row) && Aliased(SelfOf(w.conts[d]), row) && WaitOn(w.now, SelfOf(w.conts[d]), row) == Edge(rd)
  }

  // ----- between two containers -----

  /** What processing `x` installs between `x` and `y`. */
  ghost predicate Between(w: World, x: string, y: string, rd: RuleDetails)
  {
    OutDetail(w, x, y, rd) || InDetail(w, y, x, rd)
  }

  ghost predicate BetweenRule(w: World, x: string, y: string, c: string, r: Rule)
  {
    exists rd :: Between(w, x, y, rd) && Contributes(rd, c, r)
  }

  /** Each two containers install the same rules between them. */
  ghost predicate Symmetric(w: World)
  {
    forall x, y, c, r :: BetweenRule(w, x, y, c, r) ==> BetweenRule(w, y, x, c, r)
  }

  /** A rule finds its destination under a name that the destination does not look for. */
  ghost predicate MissedEdge(w: World, s: string, d: string, r: RuleConfig, rd: RuleDetails)
  {
    && s in w.conts && d in w.conts && r in RulesFor(w, s) && EdgeRule(w.now, SelfOf(w.conts[s]), r, d, rd)
    && !AliasOf(r.container, SelfOf(w.conts[d]).name, SelfOf(w.conts[d]).service)
  }

  /** A container takes up the row of a rule that did not find it. */
  ghost predicate StrayRow(w: World, s: string, d: string, r: RuleConfig)
  {
    && s in w.conts && d in w.conts && r in RulesFor(w, s) && r.container != ""
    && DestinationOf(w.now, SelfOf(w.conts[s]), r).Deferred?
    && AliasOf(r.container, SelfOf(w.conts[d]).name, SelfOf(w.conts[d]).service)
    && !WaitOn(w.now, SelfOf(w.conts[d]), DeferredRow(SelfOf(w.conts[s]), r)).Skip?
  }

  ghost predicate StrayEdge(w: World, s: string, d: string, r: RuleConfig, rd: RuleDetails)
  {
    StrayRow(w, s, d, r) && WaitOn(w.now, SelfOf(w.conts[d]), DeferredRow(SelfOf(w.conts[s]), r)) == Edge(rd)
  }

  /** Whatever only one side installs for some rule, the other installs for another. */
  ghost predicate Covered(w: World)
  {
    && (forall s, d, r, rd, c, x :: MissedEdge(w, s, d, r, rd) && Contributes(rd, c, x) ==> BetweenRule(w, d, s, c, x))
    && forall s, d, r, rd, c, x :: StrayEdge(w, s, d, r, rd) && Contributes(rd, c, x) ==> BetweenRule(w, s, d, c, x)
  }

  // ----- facts about rules and destinations -----

  lemma RuleFacts(id: string, p: PolicyLabel, r: RuleConfig)
    requires ParsedPolicy(p) && Readable(p) && r in OutputRules(p)
    ensures ValidRule(r) && ValidateRule(r).None? && r.containers == None && Unresolved(r) && (r.container != "" ==> r.network != "")
  {
    OutputRulesValid(id, p);
    var i :| 0 <= i < |OutputRules(p)| && OutputRules(p)[i] == r;
    NormalizedRulesSurvivePersistence(p.output, i);
    NoErrorMeansAllValid(p.output);
    FlattenedRulesValid(p.output);
  }

  lemma RuleOf(w: World, s: string, r: RuleConfig)
    requires ValidWorld(w) && s in w.conts && r in RulesFor(w, s)
    ensures ValidID(s) && ValidRule(r) && ValidateRule(r).None? && r.containers == None && Unresolved(r)
    ensures r.container != "" ==> r.network != ""
  {
    assert Described(w, s);
    RuleFacts(s, w.conts[s].policy, r);
  }

  /** What the container knows of itself is what others learn by inspecting it. */
  lemma ManagedIsSelf(w: World, id: string)
    requires ValidWorld(w) && id in w.conts
    ensures var self := SelfOf(w.conts[id]);
            && self.id == id && ValidID(id) && self.project == w.conts[id].project && self.name == NameOf(w, id)
            && id in w.now.conts && Sound(w.now.conts[id])
            && w.now.conts[id].project == self.project && Managed(w.now.conts[id]) == self.networks && AllV4(self.networks)
  {
    assert Described(w, id);
  }

  lemma CollectedNames(m: Networks, network: string, project: string)
    requires AllV4(m)
    ensures FindNetwork(network, project, Collected(m)) == FindNetwork(network, project, m)
    ensures var n := FindNetwork(network, project, m);
            n.Some? ==> m[n.value].Some? && m[n.value].value.ip.V4? && Collected(m)[n.value] == KeyOf(m[n.value].value.ip.addr)
  {
    assert Collected(m).Keys == m.Keys;
    var n := FindNetwork(network, project, m);
    if n.Some? { assert HasV4(m, n.value); }
  }

  lemma ViableFacts(conts: map<string, Inspect>, id: string, network: string, srcName: string, src: Option<Endpoint>)
    ensures var look := LookAt(conts, id, network, srcName, src);
            look.Viable? ==>
              && id in conts && look.cont == conts[id]
              && var dn := FindNetwork(network, conts[id].project, Managed(conts[id]));
                 && dn.Some? && Managed(conts[id])[dn.value] == Some(look.endpoint)
                 && SameDockerNetwork(srcName, src, dn.value, Some(look.endpoint))
  {
  }

  lemma ChosenIsMatched(w: World, self: Self, r: RuleConfig) returns (m: Summary)
    requires ValidWorld(w) && DestinationOf(w.now, self, r).Chosen?
    ensures m in w.now.listed && NameRank(r.container, self.project, m) > 0 && m.id == DestinationOf(w.now, self, r).cont.id != ""
    ensures var d, src := DestinationOf(w.now, self, r), SourceEndpoint(self, r);
            LookAt(w.now.conts, m.id, r.network, src.0, src.1) == Viable(d.cont, d.endpoint)
  {
    ChosenIsViable(w.now, self, r);
    BestMatchesContents(w.now.listed, r.container, self.project);
    var d, src := DestinationOf(w.now, self, r), SourceEndpoint(self, r);
    m :| m in BestMatches(w.now.listed, r.container, self.project)
         && LookAt(w.now.conts, m.id, r.network, src.0, src.1) == Viable(d.cont, d.endpoint);
  }

  /** Facts about a chosen destination. */
  lemma ChosenFacts(w: World, self: Self, r: RuleConfig)
    requires ValidWorld(w) && DestinationOf(w.now, self, r).Chosen? && DestinationOf(w.now, self, r).cont.id in w.conts
    ensures var d := DestinationOf(w.now, self, r);
            var id := d.cont.id;
            && id in w.now.conts && d.cont == w.now.conts[id] && ValidID(id) && d.endpoint.ip.V4?
            && var src, dn := SourceEndpoint(self, r), FindNetwork(r.network, w.conts[id].project, SelfOf(w.conts[id]).networks);
               && dn.Some? && SelfOf(w.conts[id]).networks[dn.value] == Some(d.endpoint)
               && SameDockerNetwork(src.0, src.1, dn.value, Some(d.endpoint))
  {
    var m := ChosenIsMatched(w, self, r);
    var src := SourceEndpoint(self, r);
    ViableFacts(w.now.conts, m.id, r.network, src.0, src.1);
    ManagedIsSelf(w, m.id);
    CollectedNames(SelfOf(w.conts[m.id]).networks, r.network, SelfOf(w.conts[m.id]).project);
  }

  lemma PersistedIsValid(r: RuleConfig, x: RuleConfig)
    requires ValidRule(r) && ValidateRule(r).None? && r.containers == None
    requires x == r.(identityVersion := x.identityVersion, sourceProject := x.sourceProject, networkID := x.networkID,
                     resolvedContainerID := x.resolvedContainerID, resolvedContainerName := x.resolvedContainerName)
    ensures ValidParts(Persisted(x)) && ValidateRule(Persisted(x)).None? && !Persisted(x).verdict.drop
  {
    assert Ips(Persisted(x)) == Ips(r);
  }

  // ----- what the output path generates -----

  lemma FillRows(now: Snapshot, known: set<string>, self: Self, r: RuleConfig)
    requires Fill(now, known, self, r).Some?
    ensures Fill(now, known, self, r).value.rows == RowsOf(now, self, r)
  {
  }

  lemma FilledRows(now: Snapshot, known: set<string>, self: Self, rules: seq<RuleConfig>)
    requires FillAll(now, known, self, rules).Some?
    ensures forall row :: row in FillAll(now, known, self, rules).value.rows <==> exists r :: r in rules && row in RowsOf(now, self, r)
  {
    var fs := Fills(now, known, self, rules);
    CollectContents(fs);
    forall i | 0 <= i < |rules| ensures fs[i].Some? && fs[i].value.rows == RowsOf(now, self, rules[i]) {
      FillRows(now, known, self, rules[i]);
    }
    forall row | row in Collect(fs).value.rows ensures exists r :: r in rules && row in RowsOf(now, self, r) {
      var i :| 0 <= i < |fs| && fs[i].Some? && row in fs[i].value.rows;
      assert rules[i] in rules;
    }
    forall r, row | r in rules && row in RowsOf(now, self, r) ensures row in Collect(fs).value.rows {
      var i :| 0 <= i < |rules| && rules[i] == r;
      assert row in fs[i].value.rows;
    }
  }

  /** What one rule that names a container generates: the edge, if the peer is known. */
  lemma OneOutput(now: Snapshot, known: set<string>, self: Self, r: RuleConfig, rd: RuleDetails)
    requires r.container != "" && r.network != "" && !r.skip && Fill(now, known, self, r).Some?
    ensures var out := OutputDetails(self, Collected(self.networks), Fill(now, known, self, r).value.cfg);
            out.Some? ==> (rd in out.value <==> exists d :: d in known && EdgeRule(now, self, r, d, rd))
  {
    var dest, cfg := DestinationOf(now, self, r), Identified(self, r);
    var out := OutputDetails(self, Collected(self.networks), Fill(now, known, self, r).value.cfg);
    assert Fill(now, known, self, r) == FillWith(dest, known, self.id, cfg);
    if dest.Chosen? && dest.cont.id in known && out.Some? {
      var filled := Resolved(self, r, dest.cont, dest.endpoint.ip.addr);
      assert Fill(now, known, self, r).value.cfg == filled;
      assert out.value == {OutputEdge(self, filled, SourceKey(self, r))};
      if rd in out.value { assert EdgeRule(now, self, r, dest.cont.id, rd); }
    }
  }

  /** The output path generates exactly the own rules and the edges to containers
      that have been processed. */
  lemma OutputsAreCanonical(now: Snapshot, known: set<string>, self: Self, rules: seq<RuleConfig>, cfgs: seq<RuleConfig>, rd: RuleDetails)
    requires FillAll(now, known, self, rules).Some? && cfgs == FillAll(now, known, self, rules).value.cfgs
    requires OutputsPossible(self, Collected(self.networks), cfgs)
    requires forall r :: r in rules ==> !r.skip && (r.container != "" ==> r.network != "")
    ensures OutputWanted(self, Collected(self.networks), cfgs, rd) <==>
            exists r :: r in rules && (OwnRule(self, r, rd) || exists d :: d in known && EdgeRule(now, self, r, d, rd))
  {
    var addrs := Collected(self.networks);
    CollectContents(Fills(now, known, self, rules));
    forall i | 0 <= i < |rules|
      ensures rd in OutputDetails(self, addrs, cfgs[i]).value
              <==> OwnRule(self, rules[i], rd) || exists d :: d in known && EdgeRule(now, self, rules[i], d, rd)
    {
      assert OutputDetails(self, addrs, cfgs[i]).Some?;
      if rules[i].container != "" { OneOutput(now, known, self, rules[i], rd); }
    }
    if OutputWanted(self, addrs, cfgs, rd) {
      var i :| 0 <= i < |cfgs| && OutputDetails(self, addrs, cfgs[i]).Some? && rd in OutputDetails(self, addrs, cfgs[i]).value;
      assert rules[i] in rules;
    }
    if exists r :: r in rules && (OwnRule(self, r, rd) || exists d :: d in known && EdgeRule(now, self, r, d, rd)) {
      var r :| r in rules && (OwnRule(self, r, rd) || exists d :: d in known && EdgeRule(now, self, r, d, rd));
      var i :| 0 <= i < |rules| && rules[i] == r;
      assert rd in OutputDetails(self, addrs, cfgs[i]).value;
    }
  }

  // ----- resolved rows -----

  /** The two descriptions of an edge differ in the log prefix and in fields that
      no rule is generated from. */
  ghost predicate SameEdge(a: RuleDetails, b: RuleDetails)
  {
    b == a.(cfg := b.cfg) && SameButLog(a.cfg, b.cfg) && PlainVerdict(a.cfg.verdict)
  }

  lemma SameEdgesContribute(a: RuleDetails, b: RuleDetails, c: string, r: Rule)
    requires SameEdge(a, b)
    ensures Contributes(a, c, r) <==> Contributes(b, c, r)
  {
    SameContributions(a, b.cfg, c, r);
    SameContributions(b, a.cfg, c, r);
    assert a == b.(cfg := a.cfg);
  }

  lemma ResolvedRowPasses(S: Self, D: Self, r: RuleConfig, c: Inspect, e: Endpoint, row: Waiting, now: Snapshot)
    requires row == ResolvedRow(S, r, c)
    requires c.id == D.id && D.id != "" && r.network != "" && ValidParts(row.rule) && ValidateRule(row.rule).None?
    requires S.id in now.conts && Sound(now.conts[S.id]) && now.conts[S.id].project == S.project && Managed(now.conts[S.id]) == S.networks
    requires var src, dn := SourceEndpoint(S, r), FindNetwork(r.network, D.project, D.networks);
             && dn.Some? && D.networks[dn.value] == Some(e) && e.ip.V4?
             && src.1.Some? && src.1.value.ip.V4? && SameDockerNetwork(src.0, src.1, dn.value, Some(e))
    ensures WaitOn(now, D, row) == Edge(WaitingEdge(row, D.id, SourceEndpoint(S, r).1.value.ip.addr, e.ip.addr))
  {
    assert FilterRow(D, row).None?;
  }

  lemma EdgesAgree(S: Self, r: RuleConfig, c: Inspect, a: Addr32, row: Waiting, src: Addr32)
    requires row == ResolvedRow(S, r, c) && ValidRule(r) && SourceKey(S, r) == KeyOf(src)
    ensures SameEdge(WaitingEdge(row, c.id, src, a), OutputEdge(S, Resolved(S, r, c, a), SourceKey(S, r)))
  {
    var x, y := WaitingEdge(row, c.id, src, a), OutputEdge(S, Resolved(S, r, c, a), SourceKey(S, r));
    assert Ips(x.cfg) == Ips(y.cfg) == [Addr(a)];
  }

  lemma SourceFacts(w: World, s: string, r: RuleConfig)
    requires ValidWorld(w) && s in w.conts && r.network != ""
    ensures var S := SelfOf(w.conts[s]);
            SourceEndpoint(S, r).1.Some? ==>
              SourceEndpoint(S, r).1.value.ip.V4? && SourceKey(S, r) == KeyOf(SourceEndpoint(S, r).1.value.ip.addr)
  {
    var S := SelfOf(w.conts[s]);
    ManagedIsSelf(w, s);
    CollectedNames(S.networks, r.network, S.project);
  }

  /** The row of a resolved rule, read by its destination, is the same edge. */
  lemma ResolvedRowIsEdge(w: World, s: string, id: string, r: RuleConfig) returns (row: Waiting, rd: RuleDetails)
    requires ValidWorld(w) && s in w.conts && id in w.conts && r in RulesFor(w, s) && r.container != ""
    requires var d := DestinationOf(w.now, SelfOf(w.conts[s]), r); d.Chosen? && d.cont.id == id
    ensures RowsOf(w.now, SelfOf(w.conts[s]), r) == {row} && RowOf(w, s, row) && row.dstName == r.container
    ensures EdgeRule(w.now, SelfOf(w.conts[s]), r, id, rd)
    ensures var wait := WaitOn(w.now, SelfOf(w.conts[id]), row); wait.Edge? && SameEdge(wait.rd, rd)
  {
    var S, D := SelfOf(w.conts[s]), SelfOf(w.conts[id]);
    var d := DestinationOf(w.now, S, r);
    RuleOf(w, s, r);
    ChosenFacts(w, S, r);
    ManagedIsSelf(w, s);
    ManagedIsSelf(w, id);
    SourceFacts(w, s, r);
    row := ResolvedRow(S, r, d.cont);
    rd := OutputEdge(S, Resolved(S, r, d.cont, d.endpoint.ip.addr), SourceKey(S, r));
    PersistedIsValid(r, Identified(S, r).(resolvedContainerID := id, resolvedContainerName := StripName(d.cont.name)));
    ResolvedRowPasses(S, D, r, d.cont, d.endpoint, row, w.now);
    EdgesAgree(S, r, d.cont, d.endpoint.ip.addr, row, SourceEndpoint(S, r).1.value.ip.addr);
  }

  lemma FilterSkipsOthers(self: Self, row: Waiting)
    requires ValidParts(row.rule) && ValidateRule(row.rule).None?
    requires row.rule.resolvedContainerID != "" && row.rule.resolvedContainerID != self.id
    ensures FilterRow(self, row) == Some(Skip)
  {
  }

  /** Nobody else takes it up. */
  lemma RowResolvedElsewhere(w: World, s: string, id: string, r: RuleConfig)
    requires ValidWorld(w) && s in w.conts && id in w.conts && r in RulesFor(w, s) && r.container != ""
    requires var d := DestinationOf(w.now, SelfOf(w.conts[s]), r); d.Chosen? && d.cont.id != id && d.cont.id != ""
    ensures WaitOn(w.now, SelfOf(w.conts[id]), ResolvedRow(SelfOf(w.conts[s]), r, DestinationOf(w.now, SelfOf(w.conts[s]), r).cont)) == Skip
  {
    var S := SelfOf(w.conts[s]);
    var d := DestinationOf(w.now, S, r);
    ManagedIsSelf(w, id);
    RuleOf(w, s, r);
    PersistedIsValid(r, Identified(S, r).(resolvedContainerID := d.cont.id, resolvedContainerName := StripName(d.cont.name)));
    FilterSkipsOthers(SelfOf(w.conts[id]), ResolvedRow(S, r, d.cont));
  }

  /** A row that its reader does not skip is that of a rule resolved to the reader,
      or strays from a rule that found nothing. */
  lemma RowsInEffect(w: World, s: string, id: string, r: RuleConfig, row: Waiting)
    requires ValidWorld(w) && s in w.conts && id in w.conts && r in RulesFor(w, s) && row in RowsOf(w.now, SelfOf(w.conts[s]), r)
    requires Aliased(SelfOf(w.conts[id]), row) && !WaitOn(w.now, SelfOf(w.conts[id]), row).Skip?
    ensures var d := DestinationOf(w.now, SelfOf(w.conts[s]), r);
            || (d.Chosen? && d.cont.id == id && WaitOn(w.now, SelfOf(w.conts[id]), row).Edge?)
            || (row == DeferredRow(SelfOf(w.conts[s]), r) && StrayRow(w, s, id, r))
  {
    var d := DestinationOf(w.now, SelfOf(w.conts[s]), r);
    if d.Chosen? && d.cont.id == id { var row', rd := ResolvedRowIsEdge(w, s, id, r); }
    else if d.Chosen? {
      var m := ChosenIsMatched(w, SelfOf(w.conts[s]), r);
      RowResolvedElsewhere(w, s, id, r);
    }
  }

  // ----- when the two sides install the same -----

  lemma SymmetricIsCovered(w: World)
    requires ValidWorld(w) && Symmetric(w)
    ensures Covered(w)
  {
    forall s, d, r, rd, c, x | MissedEdge(w, s, d, r, rd) && Contributes(rd, c, x) ensures BetweenRule(w, d, s, c, x) {
      assert Between(w, s, d, rd) && BetweenRule(w, s, d, c, x);
    }
    forall s, d, r, rd, c, x | StrayEdge(w, s, d, r, rd) && Contributes(rd, c, x) ensures BetweenRule(w, s, d, c, x) {
      StrayIsIn(w, s, d, r, rd);
      assert Between(w, d, s, rd) && BetweenRule(w, d, s, c, x);
    }
  }

  lemma StrayIsIn(w: World, s: string, d: string, r: RuleConfig, rd: RuleDetails)
    requires StrayEdge(w, s, d, r, rd)
    ensures InDetail(w, s, d, rd)
  {
    assert RowOf(w, s, DeferredRow(SelfOf(w.conts[s]), r));
  }

  lemma OutIsTakenUp(w: World, x: string, y: string, rd: RuleDetails, c: string, q: Rule)
    requires ValidWorld(w) && Covered(w) && OutDetail(w, x, y, rd) && Contributes(rd, c, q)
    ensures BetweenRule(w, y, x, c, q)
  {
    var r :| r in RulesFor(w, x) && EdgeRule(w.now, SelfOf(w.conts[x]), r, y, rd);
    if AliasOf(r.container, SelfOf(w.conts[y]).name, SelfOf(w.conts[y]).service) {
      var row, rd' := ResolvedRowIsEdge(w, x, y, r);
      var other := WaitOn(w.now, SelfOf(w.conts[y]), row).rd;
      SameEdgesContribute(other, rd, c, q);
      assert Between(w, y, x, other);
    } else {
      assert MissedEdge(w, x, y, r, rd);
    }
  }

  lemma InIsInstalled(w: World, x: string, y: string, rd: RuleDetails, c: string, q: Rule)
    requires ValidWorld(w) && Covered(w) && InDetail(w, y, x, rd) && Contributes(rd, c, q)
    ensures BetweenRule(w, y, x, c, q)
  {
    var row :| RowOf(w, y, row) && Aliased(SelfOf(w.conts[x]), row) && WaitOn(w.now, SelfOf(w.conts[x]), row) == Edge(rd);
    var r :| r in RulesFor(w, y) && row in RowsOf(w.now, SelfOf(w.conts[y]), r);
    RowsInEffect(w, y, x, r, row);
    if DestinationOf(w.now, SelfOf(w.conts[y]), r).Chosen? {
      var row', other := ResolvedRowIsEdge(w, y, x, r);
      SameEdgesContribute(rd, other, c, q);
      assert OutDetail(w, y, x, other) && Between(w, y, x, other);
    } else {
      assert StrayEdge(w, y, x, r, rd);
    }
  }

  /** Two containers install the same rules between them, whichever is processed
      last, exactly if every rule that only one of them would install is installed
      by the other for another reason. */
  lemma SymmetricExactly(w: World)
    requires ValidWorld(w)
    ensures Symmetric(w) <==> Covered(w)
  {
    if Symmetric(w) { SymmetricIsCovered(w); }
    if Covered(w) {
      forall x, y, c, q | BetweenRule(w, x, y, c, q) ensures BetweenRule(w, y, x, c, q) {
        var rd :| Between(w, x, y, rd) && Contributes(rd, c, q);
        if OutDetail(w, x, y, rd) { OutIsTakenUp(w, x, y, rd, c, q); } else { InIsInstalled(w, x, y, rd, c, q); }
      }
    }
  }

  // ----- which names do it -----

  /** Docker's answers belong together: what is listed can be inspected and runs,
      and what is managed is listed under its own labels. */
  ghost predicate Steady(w: World)
  {
    && (forall m :: m in w.now.listed ==> m.id in w.now.conts && !w.now.conts[m.id].stopped)
    && (forall m :: m in w.now.listed && m.id in w.conts ==>
          m.project == w.conts[m.id].project && ServiceOf(m.service) == w.conts[m.id].service)
    && forall id :: id in w.conts ==> exists m :: m in w.now.listed && m.id == id
  }

  /** A rule of `s` hits one of the gaps between matching and looking up. */
  ghost predicate HitsGap(w: World, s: string, d: string, r: RuleConfig)
  {
    && s in w.conts && d in w.conts && r in RulesFor(w, s) && r.container != ""
    && exists m :: m in w.now.listed && m.id == d
                   && var name, project := NameOf(w, d), w.conts[s].project;
                      || LinkGap(r.container, m, name) || SlashGap(r.container, project, m, name)
                      || ServiceGap(r.container, m, name) || OwnNameGap(r.container, m, name)
  }

  lemma MissedHitsGap(w: World, s: string, d: string, r: RuleConfig, rd: RuleDetails)
    requires ValidWorld(w) && Steady(w) && MissedEdge(w, s, d, r, rd)
    ensures HitsGap(w, s, d, r)
  {
    var m := ChosenIsMatched(w, SelfOf(w.conts[s]), r);
    MatchedNamesAreAliases(r.container, w.conts[s].project, m, NameOf(w, d));
  }

  /** When every match is present, none is deferred unless nothing matches. */
  lemma {:induction false} PresentMatches(conts: map<string, Inspect>, matches: seq<Summary>, network: string, srcName: string,
                                          src: Option<Endpoint>)
    requires forall m :: m in matches ==> m.id in conts && !conts[m.id].stopped
    ensures var t := Tallied(conts, matches, network, srcName, src); t.broken || t.present == |matches|
  {
    if matches != [] {
      assert matches[|matches| - 1] in matches;
      PresentMatches(conts, matches[..|matches| - 1], network, srcName, src);
    }
  }

  lemma DeferredMeansUnmatched(w: World, self: Self, r: RuleConfig, m: Summary)
    requires Steady(w) && DestinationOf(w.now, self, r).Deferred? && m in w.now.listed
    ensures NameRank(r.container, self.project, m) == 0
  {
    var src := SourceEndpoint(self, r);
    var matches := BestMatches(w.now.listed, r.container, self.project);
    BestMatchesContents(w.now.listed, r.container, self.project);
    PresentMatches(w.now.conts, matches, r.network, src.0, src.1);
    assert matches == [];
  }

  lemma StrayHitsGap(w: World, s: string, d: string, r: RuleConfig)
    requires ValidWorld(w) && Steady(w) && StrayRow(w, s, d, r)
    ensures HitsGap(w, s, d, r)
  {
    var S, D := SelfOf(w.conts[s]), SelfOf(w.conts[d]);
    var m :| m in w.now.listed && m.id == d;
    DeferredMeansUnmatched(w, S, r, m);
    RuleOf(w, s, r);
    PersistedIsValid(r, Identified(S, r));
    assert Eligible(S.project, m) by {
      if S.project != "" && D.project != S.project { assert false; }
    }
    AliasesMatch(r.container, S.project, m, NameOf(w, d));
  }

  /** If no rule hits a gap, both sides install the same, and no stored row fails. */
  lemma NoGapsMeansCovered(w: World)
    requires ValidWorld(w) && Steady(w) && forall s, d, r :: !HitsGap(w, s, d, r)
    ensures Covered(w) && forall s, d, r :: !StrayRow(w, s, d, r)
  {
    forall s, d, r, rd ensures !MissedEdge(w, s, d, r, rd) {
      if MissedEdge(w, s, d, r, rd) { MissedHitsGap(w, s, d, r, rd); }
    }
    forall s, d, r ensures !StrayRow(w, s, d, r) {
      if StrayRow(w, s, d, r) { StrayHitsGap(w, s, d, r); }
    }
  }
}
