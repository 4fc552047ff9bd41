/** The rules between containers: from the source's side when its output rules
    are generated, and from the destination's side when it starts later. */
module Outputs {
  import opened Bytes
  import opened Nft
  import opened Names
  import opened Chains
  import opened Compiler
  import opened Config
  import opened Wrappers
  import opened Policy
  import opened Traffic
  import opened Scope
  import opened Store
  import opened Generate

  // ----- populateOutputRules -----

  /** One rule with its destination filled in, the row kept for the destination's
      start, and the peer the rule is installed at. */
  datatype Filled = Filled(cfg: RuleConfig, rows: set<Waiting>, est: set<string>)

  /** The source's own endpoint on the rule's network. */
  function SourceEndpoint(self: Self, r: RuleConfig): (string, Option<Endpoint>)
  {
    var n := if r.network == "" then None else FindNetwork(r.network, self.project, self.networks);
    if n.None? then ("", None) else (n.value, self.networks[n.value])
  }

  function Identified(self: Self, r: RuleConfig): RuleConfig
  {
    var src := SourceEndpoint(self, r).1;
    r.(identityVersion := 1, sourceProject := self.project,
       networkID := if src.Some? then src.value.networkID else r.networkID)
  }

  function DestinationOf(now: Snapshot, self: Self, r: RuleConfig): Destination
  {
    var src := SourceEndpoint(self, r);
    Decide(Tallied(now.conts, BestMatches(now.listed, r.container, self.project), r.network, src.0, src.1))
  }

  /** `known` holds the containers that have been processed. */
  function FillWith(d: Destination, known: set<string>, id: string, cfg: RuleConfig): Option<Filled>
  {
    match d
    case Refused => None
    case Deferred => Some(Filled(cfg.(skip := true), {Waiting(id, cfg.container, Persisted(cfg))}, {}))
    case Chosen(c, e) =>
      var resolved := cfg.(resolvedContainerID := c.id, resolvedContainerName := StripName(c.name));
      var rows := {Waiting(id, cfg.container, Persisted(resolved))};
      if c.id !in known then Some(Filled(resolved.(skip := true), rows, {}))
      else if !e.ip.V4? then None
      else Some(Filled(resolved.(ips := Some([Addr(e.ip.addr)])), rows, {c.id}))
  }

  function Fill(now: Snapshot, known: set<string>, self: Self, r: RuleConfig): Option<Filled>
  {
    if r.network != "" && FindNetwork(r.network, self.project, self.networks).None? then None
    else if r.container == "" then Some(Filled(r, {}, {}))
    else FillWith(DestinationOf(now, self, r), known, self.id, Identified(self, r))
  }

  datatype FilledPolicy = FilledPolicy(cfgs: seq<RuleConfig>, rows: set<Waiting>, est: set<string>)

  function Join(p: FilledPolicy, f: Filled): FilledPolicy
  {
    FilledPolicy(p.cfgs + [f.cfg], p.rows + f.rows, p.est + f.est)
  }

  function Fills(now: Snapshot, known: set<string>, self: Self, rules: seq<RuleConfig>): (r: seq<Option<Filled>>)
    ensures |r| == |rules| && forall i :: 0 <= i < |rules| ==> r[i] == Fill(now, known, self, rules[i])
  {
    seq(|rules|, i requires 0 <= i < |rules| => Fill(now, known, self, rules[i]))
  }

  /** All or nothing. */
  function Collect(fs: seq<Option<Filled>>): (r: Option<FilledPolicy>)
    ensures r.Some? ==> |r.value.cfgs| == |fs|
  {
    if fs == [] then Some(FilledPolicy([], {}, {}))
    else
      var p, f := Collect(fs[..|fs| - 1]), fs[|fs| - 1];
      if p.None? || f.None? then None else Some(Join(p.value, f.value))
  }

  lemma {:induction false} CollectContents(fs: seq<Option<Filled>>)
    ensures Collect(fs).Some? <==> forall i :: 0 <= i < |fs| ==> fs[i].Some?
    ensures Collect(fs).Some? ==> forall i :: 0 <= i < |fs| ==> Collect(fs).value.cfgs[i] == fs[i].value.cfg
    ensures Collect(fs).Some? ==>
              forall w :: w in Collect(fs).value.rows <==> exists i :: 0 <= i < |fs| && fs[i].Some? && w in fs[i].value.rows
  {
    if fs != [] {
      var n := |fs| - 1;
      CollectContents(fs[..n]);
      if Collect(fs).Some? {
        var front := Collect(fs[..n]).value.rows;
        forall w ensures w in Collect(fs).value.rows <==> exists i :: 0 <= i < |fs| && fs[i].Some? && w in fs[i].value.rows {
          if w in front {
            var i :| 0 <= i < n && fs[..n][i].Some? && w in fs[..n][i].value.rows;
            assert w in fs[i].value.rows;
          }
          if w in fs[n].value.rows { assert w in Collect(fs).value.rows; }
          if i :| 0 <= i < |fs| && fs[i].Some? && w in fs[i].value.rows {
            if i < n { assert fs[..n][i] == fs[i]; }
          }
        }
      }
    }
  }

  lemma CollectStep(fs: seq<Option<Filled>>, i: nat)
    requires i < |fs| && Collect(fs[..i]).Some?
    ensures fs[i].Some? ==> Collect(fs[..i + 1]) == Some(Join(Collect(fs[..i]).value, fs[i].value))
    ensures fs[i].None? ==> Collect(fs).None?
  {
    assert fs[..i + 1][..i] == fs[..i];
    if fs[i].None? { CollectContents(fs); }
  }

  function FillAll(now: Snapshot, known: set<string>, self: Self, rules: seq<RuleConfig>): (r: Option<FilledPolicy>)
    ensures r.Some? ==> |r.value.cfgs| == |rules|
  {
    Collect(Fills(now, known, self, rules))
  }

  method FillFrom(db: Database, d: Destination, id: string, cfg: RuleConfig) returns (f: Option<Filled>)
    modifies db.faults
    ensures f.Some? ==> f == FillWith(d, db.work.containers.Keys, id, cfg)
    ensures old(db.faults.script) == [] ==> db.faults.script == [] && f == FillWith(d, db.work.containers.Keys, id, cfg)
  {
    match d {
      case Refused =>
        return None;
      case Deferred =>
        return Some(Filled(cfg.(skip := true), {Waiting(id, cfg.container, Persisted(cfg))}, {}));
      case Chosen(c, e) =>
        var resolved := cfg.(resolvedContainerID := c.id, resolvedContainerName := StripName(c.name));
        var rows := {Waiting(id, cfg.container, Persisted(resolved))};
        var exists_ := db.Exists(c.id);
        if exists_.None? { return None; }
        if !exists_.value { return Some(Filled(resolved.(skip := true), rows, {})); }
        match e.ip {
          case V4(a) => return Some(Filled(resolved.(ips := Some([Addr(a)])), rows, {c.id}));
          case _ => return None;
        }
    }
  }

  method FillRule(docker: Docker, db: Database, listed: seq<Summary>, self: Self, r: RuleConfig) returns (f: Option<Filled>)
    requires docker.faults == db.faults
    requires listed == docker.now.listed || r.container == ""
    modifies db.faults
    ensures f.Some? ==> f == Fill(docker.now, db.work.containers.Keys, self, r)
    ensures old(db.faults.script) == [] ==>
              db.faults.script == [] && f == Fill(docker.now, db.work.containers.Keys, self, r)
  {
    if r.network != "" && FindNetwork(r.network, self.project, self.networks).None? { return None; }
    if r.container == "" { return Some(Filled(r, {}, {})); }
    var src := SourceEndpoint(self, r);
    var matches := ScanNames(listed, r.container, self.project);
    var destination := Examine(docker, matches, r.network, src.0, src.1);
    f := FillFrom(db, destination, self.id, Identified(self, r));
  }

  /** Fill every rule in turn, and queue its row in the open transaction. */
  method PopulateOutputRules(docker: Docker, db: Database, rules: seq<RuleConfig>, self: Self) returns (r: Option<FilledPolicy>)
    requires docker.faults == db.faults && self.id in db.work.containers
    modifies db`work, db.faults
    ensures r.Some? ==> r == FillAll(docker.now, old(db.work).containers.Keys, self, rules)
    ensures r.Some? ==> db.work == old(db.work).(waiting := old(db.work).waiting + r.value.rows)
    ensures old(db.faults.script) == [] ==>
              db.faults.script == [] && r == FillAll(docker.now, old(db.work).containers.Keys, self, rules)
  {
    ghost var t: Tables := db.work;
    var listed := [];
    if exists i :: 0 <= i < |rules| && rules[i].container != "" {
      var answer := docker.List();
      if answer.None? { return None; }
      listed := answer.value;
    }
    ghost var fs := Fills(docker.now, t.containers.Keys, self, rules);
    var done := FilledPolicy([], {}, {});
    for i := 0 to |rules|
      invariant Collect(fs[..i]) == Some(done)
      invariant db.work == t.(waiting := t.waiting + done.rows)
      invariant old(db.faults.script) == [] ==> db.faults.script == []
    {
      CollectStep(fs, i);
      var f := FillRule(docker, db, listed, self, rules[i]);
      if f.None? { return None; }
      RowsOfSelf(docker.now, t.containers.Keys, self, rules[i]);
      var ok := QueueRows(db, f.value.rows, self.id);
      if !ok { return None; }
      assert t.waiting + (done.rows + f.value.rows) == t.waiting + done.rows + f.value.rows;
      done := Join(done, f.value);
    }
    assert fs[..|rules|] == fs;
    return Some(done);
  }

  lemma RowsOfSelf(now: Snapshot, known: set<string>, self: Self, r: RuleConfig)
    ensures Fill(now, known, self, r).Some? ==> forall w :: w in Fill(now, known, self, r).value.rows ==> w.src == self.id
  {
  }

  method QueueRows(db: Database, rows: set<Waiting>, id: string) returns (ok: bool)
    requires id in db.work.containers && forall w :: w in rows ==> w.src == id
    modifies db`work, db.faults
    ensures ok ==> db.work == old(db.work).(waiting := old(db.work).waiting + rows)
    ensures old(db.faults.script) == [] ==> db.faults.script == [] && ok
  {
    ghost var t: Tables, done: set<Waiting> := db.work, {};
    ok := true;
    var todo := rows;
    while todo != {}
      invariant done + todo == rows && ok
      invariant db.work == t.(waiting := t.waiting + done)
      invariant old(db.faults.script) == [] ==> db.faults.script == []
    {
      var w :| w in todo;
      ok := db.Do(AddWaiting(w));
      if !ok { return; }
      assert t.waiting + done + {w} == t.waiting + (done + {w});
      todo, done := todo - {w}, done + {w};
    }
  }

  // ----- createOutputRules -----

  function EndsWithColon(s: string): bool
  {
    |s| >= 2 && s[|s| - 2..] == ": "
  }

  /** formatLogPrefix */
  function FormatLogPrefix(prefix: string, name: string, id: string): string
  {
    var p := "whalewall-" + name + "-" + (if |id| > 12 then id[..12] else id) + " " + prefix;
    Bound(if EndsWithColon(p) then p else p + ": ")
  }

  function Formatted(self: Self, r: RuleConfig): RuleConfig
  {
    if r.logPrefix == "" then r else r.(logPrefix := FormatLogPrefix(r.logPrefix, self.name, self.id))
  }

  /** The edge to a resolved destination, as its source generates it. */
  function OutputEdge(self: Self, r: RuleConfig, addr: Key): RuleDetails
  {
    RuleDetails(false, addr, Formatted(self, r), ChainName(self.id), Some(ChainName(r.resolvedContainerID)),
                r.resolvedContainerID, self.id)
  }

  function OwnOutput(self: Self, r: RuleConfig, addr: Key): RuleDetails
  {
    RuleDetails(false, addr, Formatted(self, r), ChainName(self.id), None, self.id, "")
  }

  /** The descriptions of one filled output rule. */
  function OutputDetails(self: Self, addrs: map<string, Key>, r: RuleConfig): Option<set<RuleDetails>>
  {
    if r.network == "" then Some(set n | n in addrs :: OwnOutput(self, r, addrs[n]))
    else
      var n := FindNetwork(r.network, self.project, addrs);
      if n.None? then None
      else if r.container == "" then Some({OwnOutput(self, r, addrs[n.value])})
      else if r.skip then Some({})
      else Some({OutputEdge(self, r, addrs[n.value])})
  }

  ghost predicate OutputWanted(self: Self, addrs: map<string, Key>, rules: seq<RuleConfig>, rd: RuleDetails)
  {
    exists i :: 0 <= i < |rules| && OutputDetails(self, addrs, rules[i]).Some? && rd in OutputDetails(self, addrs, rules[i]).value
  }

  ghost predicate OutputsPossible(self: Self, addrs: map<string, Key>, rules: seq<RuleConfig>)
  {
    forall i :: 0 <= i < |rules| ==> OutputDetails(self, addrs, rules[i]).Some?
  }

  lemma OutputWantedSnoc(self: Self, addrs: map<string, Key>, rules: seq<RuleConfig>, r: RuleConfig)
    ensures forall rd :: OutputWanted(self, addrs, rules + [r], rd) <==>
              || OutputWanted(self, addrs, rules, rd)
              || (OutputDetails(self, addrs, r).Some? && rd in OutputDetails(self, addrs, r).value)
  {
    var all := rules + [r];
    assert all[|rules|] == r && forall i :: 0 <= i < |rules| ==> all[i] == rules[i];
    forall rd | OutputWanted(self, addrs, rules, rd) ensures OutputWanted(self, addrs, all, rd) {
      var i :| 0 <= i < |rules| && OutputDetails(self, addrs, rules[i]).Some? && rd in OutputDetails(self, addrs, rules[i]).value;
      assert rd in OutputDetails(self, addrs, all[i]).value;
    }
  }

  lemma CompiledSnoc(rds: seq<RuleDetails>, rd: RuleDetails)
    ensures Compiled(rds + [rd]) == Compiled(rds) + RulesOf(rd)
  {
    assert Map(RulesOf, rds + [rd])[..|rds|] == Map(RulesOf, rds);
  }

  /** createNFTRules of one description, behind those already generated. */
  method AppendRules(rules: seq<Placed>, ghost rds: seq<RuleDetails>, rd: RuleDetails) returns (r: seq<Placed>)
    requires ValidDetails(rd) && rules == Compiled(rds)
    ensures r == Compiled(rds + [rd])
  {
    ValidDetailsCompile(rd);
    CompiledSnoc(rds, rd);
    r := rules + CreateNFTRules(rd).value;
  }

  /** A rule validated by normalizeConfig, with ports and addresses from their parsers. */
  predicate ValidRule(r: RuleConfig)
  {
    ValidParts(r) && PlainVerdict(r.verdict) && !r.verdict.drop
  }

  predicate ValidKeys(addrs: map<string, Key>)
  {
    forall n :: n in addrs ==> |addrs[n]| == 4
  }

  // ----- the packets that output rules decide -----

  /** The rule can be installed now: it names no container, or a processed one. */
  predicate Installed(r: RuleConfig) { r.network == "" || r.container == "" || !r.skip }

  /** The networks a rule is for: the one it names, or every one. */
  predicate IsFor(self: Self, addrs: map<string, Key>, r: RuleConfig, n: string)
  {
    n in addrs && (r.network == "" || FindNetwork(r.network, self.project, addrs) == Some(n))
  }

  ghost predicate LetsOut(self: Self, addrs: map<string, Key>, r: RuleConfig, p: Packet)
  {
    Installed(r) && exists n :: IsFor(self, addrs, r, n) && SentBy(addrs[n], r, p)
  }

  ghost predicate LetsBack(self: Self, addrs: map<string, Key>, r: RuleConfig, p: Packet)
  {
    Installed(r) && exists n :: IsFor(self, addrs, r, n) && ReturnedTo(addrs[n], r, p)
  }

  function AnswerChain(self: Self, r: RuleConfig): string
  {
    if r.network == "" || r.container == "" then ChainName(self.id) else ChainName(r.resolvedContainerID)
  }

  /** In its own chain a container may open the connections its rule speaks of, from
      its address on the rule's network, and go on with them; answers come back by the
      chain of the container the rule names, or by its own. */
  ghost predicate RuleAdmits(self: Self, addrs: map<string, Key>, r: RuleConfig, c: string, p: Packet)
  {
    || (c == ChainName(self.id) && (p.ct.CtNew? || Ongoing(p)) && LetsOut(self, addrs, r, p))
    || (c == AnswerChain(self, r) && Ongoing(p) && LetsBack(self, addrs, r, p))
  }

  ghost predicate RulesAdmit(self: Self, addrs: map<string, Key>, rules: seq<RuleConfig>, c: string, p: Packet)
  {
    exists i :: 0 <= i < |rules| && RuleAdmits(self, addrs, rules[i], c, p)
  }

  /** One of the descriptions decides the packet. */
  ghost predicate SomeOf(rds: set<RuleDetails>, c: string, p: Packet, m: AddrMap)
  {
    exists rd :: rd in rds && Decides(RulesOf(rd), c, p, m)
  }

  lemma FormattedAlike(self: Self, r: RuleConfig, addr: Key, p: Packet)
    ensures SentBy(addr, Formatted(self, r), p) <==> SentBy(addr, r, p)
    ensures ReturnedTo(addr, Formatted(self, r), p) <==> ReturnedTo(addr, r, p)
    ensures ValidParts(r) ==> ValidParts(Formatted(self, r))
  {
    assert Ips(Formatted(self, r)) == Ips(r);
  }

  lemma OutboundDecides(rd: RuleDetails, c: string, p: Packet, m: AddrMap)
    requires ValidDetails(rd) && !rd.inbound && !rd.cfg.verdict.drop
    ensures Decides(RulesOf(rd), c, p, m) <==>
              || (c == rd.chain && (p.ct.CtNew? || Ongoing(p)) && SentBy(rd.addr, rd.cfg, p))
              || (c == ReplyChain(rd) && Ongoing(p) && ReturnedTo(rd.addr, rd.cfg, p))
  {
    DescriptionDecides(rd, c, p, m);
  }

  lemma OutputOn(self: Self, addrs: map<string, Key>, r: RuleConfig, n: string, rd: RuleDetails, c: string, p: Packet, m: AddrMap)
    requires ValidKeys(addrs) && ValidRule(r) && n in addrs
    requires rd == if r.network == "" || r.container == "" then OwnOutput(self, r, addrs[n]) else OutputEdge(self, r, addrs[n])
    ensures Decides(RulesOf(rd), c, p, m) <==>
              || (c == ChainName(self.id) && (p.ct.CtNew? || Ongoing(p)) && SentBy(addrs[n], r, p))
              || (c == AnswerChain(self, r) && Ongoing(p) && ReturnedTo(addrs[n], r, p))
  {
    FormattedAlike(self, r, addrs[n], p);
    OutboundDecides(rd, c, p, m);
  }

  lemma OutputDetailsAdmit(self: Self, addrs: map<string, Key>, r: RuleConfig, c: string, p: Packet, m: AddrMap)
    requires ValidKeys(addrs) && ValidRule(r) && OutputDetails(self, addrs, r).Some?
    ensures SomeOf(OutputDetails(self, addrs, r).value, c, p, m) <==> RuleAdmits(self, addrs, r, c, p)
  {
    var own := r.network == "" || r.container == "";
    var rds := OutputDetails(self, addrs, r).value;
    forall n | IsFor(self, addrs, r, n) && Installed(r)
      ensures var rd := if own then OwnOutput(self, r, addrs[n]) else OutputEdge(self, r, addrs[n]);
              rd in rds && (Decides(RulesOf(rd), c, p, m) <==>
                              || (c == ChainName(self.id) && (p.ct.CtNew? || Ongoing(p)) && SentBy(addrs[n], r, p))
                              || (c == AnswerChain(self, r) && Ongoing(p) && ReturnedTo(addrs[n], r, p)))
    {
      OutputOn(self, addrs, r, n, if own then OwnOutput(self, r, addrs[n]) else OutputEdge(self, r, addrs[n]), c, p, m);
    }
    forall rd | rd in rds
      ensures exists n :: Installed(r) && IsFor(self, addrs, r, n) && rd == if own then OwnOutput(self, r, addrs[n]) else OutputEdge(self, r, addrs[n])
    {
      var n :| n in addrs && rd == if own then OwnOutput(self, r, addrs[n]) else OutputEdge(self, r, addrs[n]);
    }
  }

  lemma CompiledDecides(rds: seq<RuleDetails>, c: string, p: Packet, m: AddrMap)
    ensures Decides(Compiled(rds), c, p, m) <==> exists rd :: rd in rds && Decides(RulesOf(rd), c, p, m)
  {
    CompiledContents(rds);
    if q :| q in Compiled(rds) && q.chain == c && RunRule(q.rule, p, m).Decided? {
      var i :| 0 <= i < |rds| && q in RulesOf(rds[i]);
      assert rds[i] in rds && Decides(RulesOf(rds[i]), c, p, m);
    }
    if rd :| rd in rds && Decides(RulesOf(rd), c, p, m) {
      var i :| 0 <= i < |rds| && rds[i] == rd;
    }
  }

  lemma OutputsAdmit(self: Self, addrs: map<string, Key>, rules: seq<RuleConfig>, rds: seq<RuleDetails>, c: string, p: Packet, m: AddrMap)
    requires ValidKeys(addrs) && (forall i :: 0 <= i < |rules| ==> ValidRule(rules[i])) && OutputsPossible(self, addrs, rules)
    requires forall rd :: rd in rds <==> OutputWanted(self, addrs, rules, rd)
    ensures Decides(Compiled(rds), c, p, m) <==> RulesAdmit(self, addrs, rules, c, p)
  {
    CompiledDecides(rds, c, p, m);
    if rd :| rd in rds && Decides(RulesOf(rd), c, p, m) {
      var i :| 0 <= i < |rules| && OutputDetails(self, addrs, rules[i]).Some? && rd in OutputDetails(self, addrs, rules[i]).value;
      OutputDetailsAdmit(self, addrs, rules[i], c, p, m);
    }
    if i :| 0 <= i < |rules| && RuleAdmits(self, addrs, rules[i], c, p) {
      OutputDetailsAdmit(self, addrs, rules[i], c, p, m);
      var rd :| rd in OutputDetails(self, addrs, rules[i]).value && Decides(RulesOf(rd), c, p, m);
      assert OutputWanted(self, addrs, rules, rd);
    }
  }

  method CreateOutputRules(self: Self, rules: seq<RuleConfig>, addrs: map<string, Key>)
    returns (r: Option<seq<Placed>>, ghost rds: seq<RuleDetails>)
    requires ValidKeys(addrs) && forall i :: 0 <= i < |rules| ==> ValidRule(rules[i])
    ensures r.Some? <==> OutputsPossible(self, addrs, rules)
    ensures r.Some? ==> r.value == Compiled(rds) && forall rd :: rd in rds <==> OutputWanted(self, addrs, rules, rd)
    ensures r.Some? ==> forall c, p, m :: Decides(r.value, c, p, m) <==> RulesAdmit(self, addrs, rules, c, p)
  {
    var nftRules: seq<Placed> := [];
    rds := [];
    for i := 0 to |rules|
      invariant nftRules == Compiled(rds)
      invariant OutputsPossible(self, addrs, rules[..i])
      invariant forall rd :: rd in rds <==> OutputWanted(self, addrs, rules[..i], rd)
    {
      var details := OutputDetails(self, addrs, rules[i]);
      if details.None? { return None, rds; }
      assert rules[..i + 1] == rules[..i] + [rules[i]];
      OutputWantedSnoc(self, addrs, rules[..i], rules[i]);
      DetailsValid(self, addrs, rules[i]);
      ghost var before := rds;
      nftRules, rds := AppendAllRules(nftRules, rds, details.value);
    }
    assert rules[..|rules|] == rules;
    forall c, p, m ensures Decides(nftRules, c, p, m) <==> RulesAdmit(self, addrs, rules, c, p) {
      OutputsAdmit(self, addrs, rules, rds, c, p, m);
    }
    return Some(nftRules), rds;
  }

  lemma DetailsValid(self: Self, addrs: map<string, Key>, r: RuleConfig)
    requires ValidKeys(addrs) && ValidRule(r)
    ensures OutputDetails(self, addrs, r).Some? ==> forall rd :: rd in OutputDetails(self, addrs, r).value ==> ValidDetails(rd)
  {
    assert Ips(Formatted(self, r)) == Ips(r);
  }

  /** One description per network, or a single one. */
  method AppendAllRules(rules: seq<Placed>, ghost rds: seq<RuleDetails>, details: set<RuleDetails>)
    returns (r: seq<Placed>, ghost all: seq<RuleDetails>)
    requires rules == Compiled(rds) && forall rd :: rd in details ==> ValidDetails(rd)
    ensures r == Compiled(all) && forall rd :: rd in all <==> rd in rds || rd in details
  {
    r, all := rules, rds;
    var todo := details;
    while todo != {}
      invariant todo <= details && r == Compiled(all)
      invariant forall rd :: rd in all <==> rd in rds || rd in details - todo
    {
      var rd :| rd in todo;
      r := AppendRules(r, all, rd);
      all := all + [rd];
      todo := todo - {rd};
    }
  }

  // ----- createWaitingContainerRules -----

  predicate Aliased(self: Self, w: Waiting)
  {
    w.dstName == self.name || w.dstName in ContainerAliases(self.name, self.service)
  }

  /** What a waiting row means for the container being processed. */
  datatype Wait = Fails | Skip | Edge(rd: RuleDetails)

  function WaitingEdge(w: Waiting, id: string, src: Addr32, dst: Addr32): RuleDetails
  {
    RuleDetails(false, KeyOf(src), w.rule.(ips := Some([Addr(dst)])), ChainName(w.src), Some(ChainName(id)), id, w.src)
  }

  /** The filters on the row and the destination, before the source is inspected. */
  function FilterRow(self: Self, w: Waiting): Option<Wait>
  {
    var r, exact := w.rule, w.rule.resolvedContainerID != "";
    if !ValidParts(r) || ValidateRule(r).Some? then Some(Fails)
    else if r.identityVersion == 0 && r.resolvedContainerID == "" && r.sourceProject == "" && r.networkID == "" then Some(Skip)
    else if exact && r.resolvedContainerID != self.id then Some(Skip)
    else if !exact && r.sourceProject != "" && self.project != r.sourceProject then Some(Skip)
    else
      var dst := FindNetwork(r.network, self.project, self.networks);
      if dst.None? then Some(if exact || r.sourceProject == self.project then Fails else Skip)
      else if self.networks[dst.value].None? then Some(Fails)
      else if r.networkID != "" && self.networks[dst.value].value.networkID != ""
              && r.networkID != self.networks[dst.value].value.networkID then Some(if exact then Fails else Skip)
      else None
  }

  function WaitOn(now: Snapshot, self: Self, w: Waiting): Wait
  {
    if FilterRow(self, w).Some? then FilterRow(self, w).value
    else if w.src !in now.conts || !Sound(now.conts[w.src]) then Fails
    else
      var c := now.conts[w.src];
      var dst, src := FindNetwork(w.rule.network, self.project, self.networks), FindNetwork(w.rule.network, c.project, Managed(c));
      if src.None? || dst.None? then Fails
      else
        var srcEnd, dstEnd := Managed(c)[src.value], self.networks[dst.value];
        if srcEnd.None? || !srcEnd.value.ip.V4? then Fails
        else if !SameDockerNetwork(src.value, srcEnd, dst.value, dstEnd) then
          (if w.rule.resolvedContainerID != "" then Fails else Skip)
        else if !dstEnd.value.ip.V4? then Fails
        else Edge(WaitingEdge(w, self.id, srcEnd.value.ip.addr, dstEnd.value.ip.addr))
  }

  method ReadRow(docker: Docker, self: Self, w: Waiting) returns (r: Wait)
    modifies docker.faults
    ensures !r.Fails? ==> r == WaitOn(docker.now, self, w)
    ensures old(docker.faults.script) == [] ==> docker.faults.script == [] && r == WaitOn(docker.now, self, w)
  {
    var filtered := FilterRow(self, w);
    if filtered.Some? { return filtered.value; }
    var inspected := docker.Inspection(w.src);
    if inspected.Err? { return Fails; }
    var srcCont := inspected.value;
    var managed := ManagedPeer(srcCont);
    if managed.None? { return Fails; }
    var dst, src := FindNetwork(w.rule.network, self.project, self.networks), FindNetwork(w.rule.network, srcCont.project, managed.value);
    if src.None? || dst.None? { return Fails; }
    var srcEnd, dstEnd := managed.value[src.value], self.networks[dst.value];
    if srcEnd.None? || !srcEnd.value.ip.V4? { return Fails; }
    if !SameDockerNetwork(src.value, srcEnd, dst.value, dstEnd) {
      return if w.rule.resolvedContainerID != "" then Fails else Skip;
    }
    match dstEnd.value.ip {
      case V4(a) => return Edge(WaitingEdge(w, self.id, srcEnd.value.ip.addr, a));
      case _ => return Fails;
    }
  }

  ghost predicate WaitingWanted(now: Snapshot, self: Self, rows: set<Waiting>, rd: RuleDetails)
  {
    exists w :: w in rows && Aliased(self, w) && WaitOn(now, self, w) == Edge(rd)
  }

  ghost predicate WaitingPossible(now: Snapshot, self: Self, rows: set<Waiting>)
  {
    forall w :: w in rows && Aliased(self, w) ==> !WaitOn(now, self, w).Fails?
  }

  /** The sources of the edges that a container's start completes. */
  function WaitingSources(now: Snapshot, self: Self, rows: set<Waiting>): set<string>
  {
    set w | w in rows && Aliased(self, w) && WaitOn(now, self, w).Edge? :: w.src
  }

  /** The rows stored under any of the container's names, each once. */
  method AliasedRows(db: Database, self: Self) returns (r: Option<set<Waiting>>)
    modifies db.faults
    ensures r.Some? ==> r.value == set w | w in db.work.waiting && Aliased(self, w)
    ensures old(db.faults.script) == [] ==> db.faults.script == [] && r.Some?
  {
    var aliases := [self.name] + ContainerAliases(self.name, self.service);
    var rows: set<Waiting> := {};
    for i := 0 to |aliases|
      invariant rows == set w | w in db.work.waiting && w.dstName in aliases[..i]
      invariant old(db.faults.script) == [] ==> db.faults.script == []
    {
      var answer := db.WaitingFor(aliases[i]);
      if answer.None? { return None; }
      assert aliases[..i + 1] == aliases[..i] + [aliases[i]];
      rows := rows + set w | w in answer.value;
    }
    assert aliases[..|aliases|] == aliases;
    return Some(rows);
  }

  lemma EdgeIsValid(now: Snapshot, self: Self, w: Waiting)
    ensures WaitOn(now, self, w).Edge? && !w.rule.verdict.drop ==> ValidDetails(WaitOn(now, self, w).rd)
  {
  }

  // ----- the packets that edges decide -----

  /** The address of a container on the network that it knows by this name. */
  function AddressOn(networks: Networks, project: string, network: string): Option<nat>
  {
    var n := FindNetwork(network, project, networks);
    if n.Some? && HasV4(networks, n.value) then Some(networks[n.value].value.ip.addr) else None
  }

  /** A packet between two addresses that a rule lets through. */
  ghost predicate Opens(a: Option<nat>, b: Option<nat>, r: RuleConfig, p: Packet)
  {
    && a.Some? && b.Some? && SrcAddr(p) == a && DstAddr(p) == b
    && OnProtocol(r.proto, p) && ToPorts(r, SrcPort(p), DstPort(p))
  }

  /** And one on the way back. */
  ghost predicate AnswersFrom(a: Option<nat>, b: Option<nat>, r: RuleConfig, p: Packet)
  {
    && a.Some? && b.Some? && SrcAddr(p) == b && DstAddr(p) == a
    && OnProtocol(r.proto, p) && ToPorts(r, DstPort(p), SrcPort(p))
  }

  /** An edge from container `s` at address `a` to container `d` at address `b`: the
      source's chain lets it open the rule's connections and go on with them, and the
      destination's lets answers out. */
  ghost predicate EdgeAdmits(s: string, a: Option<nat>, d: string, b: Option<nat>, r: RuleConfig, c: string, p: Packet)
  {
    || (c == ChainName(s) && (p.ct.CtNew? || Ongoing(p)) && Opens(a, b, r, p))
    || (c == ChainName(d) && Ongoing(p) && AnswersFrom(a, b, r, p))
  }

  lemma KeyIsAddress(a: Addr32, x: Option<nat>)
    ensures IsOwn(KeyOf(a), x) <==> x == Some(a)
  {
    WidthBound(MAX_ADDR, 4);
    BigRoundTrip(a, 4);
  }

  lemma OnePeer(b: nat, x: Option<nat>)
    ensures AddrIn([Addr(b)], x) <==> x == Some(b)
  {
    assert [Addr(b)][0] == Addr(b);
  }

  /** A description with one address at each end is such an edge. */
  lemma EdgeDecides(rd: RuleDetails, s: string, a: Addr32, d: string, b: Addr32, c: string, p: Packet, m: AddrMap)
    requires ValidDetails(rd) && !rd.inbound && !rd.cfg.verdict.drop && rd.addr == KeyOf(a) && Ips(rd.cfg) == [Addr(b)]
    requires rd.chain == ChainName(s) && rd.estChain == Some(ChainName(d))
    ensures Decides(RulesOf(rd), c, p, m) <==> EdgeAdmits(s, Some(a), d, Some(b), rd.cfg, c, p)
  {
    OutboundDecides(rd, c, p, m);
    KeyIsAddress(a, SrcAddr(p));
    KeyIsAddress(a, DstAddr(p));
    OnePeer(b, SrcAddr(p));
    OnePeer(b, DstAddr(p));
  }

  /** The row's edge, from its source's address to this container's. */
  ghost predicate RowAdmits(now: Snapshot, self: Self, w: Waiting, c: string, p: Packet)
  {
    && WaitOn(now, self, w).Edge? && w.src in now.conts
    && EdgeAdmits(w.src, AddressOn(Managed(now.conts[w.src]), now.conts[w.src].project, w.rule.network),
                  self.id, AddressOn(self.networks, self.project, w.rule.network), w.rule, c, p)
  }

  ghost predicate RowsAdmit(now: Snapshot, self: Self, rows: set<Waiting>, c: string, p: Packet)
  {
    exists w :: w in rows && Aliased(self, w) && RowAdmits(now, self, w, c, p)
  }

  lemma RowDecides(now: Snapshot, self: Self, w: Waiting, c: string, p: Packet, m: AddrMap)
    requires WaitOn(now, self, w).Edge? && !w.rule.verdict.drop
    ensures Decides(RulesOf(WaitOn(now, self, w).rd), c, p, m) <==> RowAdmits(now, self, w, c, p)
  {
    var cont := now.conts[w.src];
    var a, b := AddressOn(Managed(cont), cont.project, w.rule.network), AddressOn(self.networks, self.project, w.rule.network);
    var rd := WaitOn(now, self, w).rd;
    EdgeIsValid(now, self, w);
    assert a.Some? && b.Some? && rd == WaitingEdge(w, self.id, a.value, b.value);
    EdgeDecides(rd, w.src, a.value, self.id, b.value, c, p, m);
    SamePorts(w.rule, a, b, w.src, self.id, c, p);
  }

  lemma SamePorts(r: RuleConfig, a: Option<nat>, b: Option<nat>, s: string, d: string, c: string, p: Packet)
    requires b.Some?
    ensures EdgeAdmits(s, a, d, b, r.(ips := Some([Addr(b.value)])), c, p) <==> EdgeAdmits(s, a, d, b, r, c, p)
  {
  }

  lemma WaitingAdmits(now: Snapshot, self: Self, rows: set<Waiting>, rds: seq<RuleDetails>, c: string, p: Packet, m: AddrMap)
    requires forall w :: w in rows ==> !w.rule.verdict.drop
    requires forall rd :: rd in rds <==> WaitingWanted(now, self, rows, rd)
    ensures Decides(Compiled(rds), c, p, m) <==> RowsAdmit(now, self, rows, c, p)
  {
    CompiledDecides(rds, c, p, m);
    if rd :| rd in rds && Decides(RulesOf(rd), c, p, m) {
      var w :| w in rows && Aliased(self, w) && WaitOn(now, self, w) == Edge(rd);
      RowDecides(now, self, w, c, p, m);
    }
    if w :| w in rows && Aliased(self, w) && RowAdmits(now, self, w, c, p) {
      RowDecides(now, self, w, c, p, m);
      assert WaitingWanted(now, self, rows, WaitOn(now, self, w).rd);
    }
  }

  method CreateWaitingContainerRules(docker: Docker, db: Database, self: Self)
    returns (r: Option<seq<Placed>>, ghost rds: seq<RuleDetails>, est: set<string>)
    requires docker.faults == db.faults && forall w :: w in db.work.waiting ==> !w.rule.verdict.drop
    modifies db.faults
    ensures r.Some? ==> WaitingPossible(docker.now, self, db.work.waiting)
    ensures r.Some? ==> r.value == Compiled(rds) && forall rd :: rd in rds <==> WaitingWanted(docker.now, self, db.work.waiting, rd)
    ensures r.Some? ==> forall c, p, m :: Decides(r.value, c, p, m) <==> RowsAdmit(docker.now, self, db.work.waiting, c, p)
    ensures r.Some? ==> est == WaitingSources(docker.now, self, db.work.waiting)
    ensures old(db.faults.script) == [] ==>
              db.faults.script == [] && (r.Some? <==> WaitingPossible(docker.now, self, db.work.waiting))
  {
    var nftRules: seq<Placed> := [];
    rds, est := [], {};
    var rows := AliasedRows(db, self);
    if rows.None? { return None, rds, est; }
    var todo, done: set<Waiting> := rows.value, {};
    while todo != {}
      invariant done + todo == rows.value && nftRules == Compiled(rds)
      invariant WaitingPossible(docker.now, self, done)
      invariant forall rd :: rd in rds <==> WaitingWanted(docker.now, self, done, rd)
      invariant est == WaitingSources(docker.now, self, done)
      invariant old(db.faults.script) == [] ==> db.faults.script == []
    {
      var w :| w in todo;
      var wait := ReadRow(docker, self, w);
      if wait.Fails? { return None, rds, est; }
      if wait.Edge? {
        EdgeIsValid(docker.now, self, w);
        nftRules := AppendRules(nftRules, rds, wait.rd);
        rds := rds + [wait.rd];
        est := est + {w.src};
      }
      todo, done := todo - {w}, done + {w};
    }
    forall rd ensures rd in rds <==> WaitingWanted(docker.now, self, db.work.waiting, rd) { AliasedSuffice(docker.now, self, db.work.waiting, rows.value, rd); }
    forall c, p, m ensures Decides(nftRules, c, p, m) <==> RowsAdmit(docker.now, self, db.work.waiting, c, p) {
      WaitingAdmits(docker.now, self, db.work.waiting, rds, c, p, m);
    }
    return Some(nftRules), rds, est;
  }

  lemma AliasedSuffice(now: Snapshot, self: Self, all: set<Waiting>, rows: set<Waiting>, rd: RuleDetails)
    requires rows == set w | w in all && Aliased(self, w)
    ensures WaitingWanted(now, self, rows, rd) <==> WaitingWanted(now, self, all, rd)
  {
    if WaitingWanted(now, self, all, rd) {
      var w :| w in all && Aliased(self, w) && WaitOn(now, self, w) == Edge(rd);
      assert w in rows;
    }
  }
}
