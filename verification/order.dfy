/** What the order of processing could change: the names a rule can match and the
    names a starting container looks for rules under; and rules up to the text of
    their log prefixes, which the two ways of generating an edge set differently. */
module Order {
  import opened Bytes
  import opened Nft
  import opened Compiler
  import opened Config
  import opened Wrappers
  import opened Policy
  import opened Store
  import opened Generate

  // ----- names and aliases -----

  function ServiceOf(s: Option<string>): string
  {
    if s.Some? then s.value else ""
  }

  /** The names under which a starting container looks for waiting rules. */
  predicate AliasOf(expected: string, name: string, service: string)
  {
    expected == name || expected in ContainerAliases(name, service)
  }

  /** Docker lists the container under this name: its own, or that of a link. */
  predicate ListedAs(expected: string, names: seq<string>)
  {
    expected in names || (expected != "" && expected[0] != '/' && "/" + expected in names)
  }

  function Bare(expected: string): string
  {
    if expected != "" && expected[0] == '/' then expected[1..] else expected
  }

  predicate Eligible(project: string, m: Summary)
  {
    project == "" || m.project == project
  }

  /** The containers a rule means: all that are listed under the name; if there is
      none, the Compose service of that name, in the rule's own project. */
  lemma NamesOutrankServices(listed: seq<Summary>, expected: string, project: string, c: Summary)
    requires expected != ""
    ensures c in BestMatches(listed, expected, project) <==>
              c in listed && (|| ListedAs(expected, c.names)
                              || (&& c.service == Some(Bare(expected)) && Eligible(project, c)
                                  && forall d :: d in listed ==> !ListedAs(expected, d.names)))
  {
    BestMatchesContents(listed, expected, project);
    forall d ensures (NameRank(expected, project, d) == 2 <==> ListedAs(expected, d.names)) {}
  }

  /** A listed name, such as that of a link, that is neither the container's own
      name nor its service. */
  predicate LinkGap(expected: string, m: Summary, name: string)
  {
    && ListedAs(expected, m.names) && expected != name && expected != "/" + name
    && (ServiceOf(m.service) == "" || (expected != ServiceOf(m.service) && expected != "/" + ServiceOf(m.service)))
  }

  /** A lone slash, for a container whose service label is present and empty. */
  predicate SlashGap(expected: string, project: string, m: Summary, name: string)
  {
    expected == "/" && m.service == Some("") && name != "" && name != "/" && Eligible(project, m)
  }

  /** Every name that matches a container is an alias of it, with exactly these exceptions. */
  lemma MatchedNamesAreAliases(expected: string, project: string, m: Summary, name: string)
    requires expected != ""
    ensures NameRank(expected, project, m) > 0 && !AliasOf(expected, name, ServiceOf(m.service))
            <==> LinkGap(expected, m, name) || SlashGap(expected, project, m, name)
  {
    var aliases := ContainerAliases(name, ServiceOf(m.service));
    assert aliases[0] == "/" + name;
    if |aliases| == 3 { assert aliases == ["/" + name, ServiceOf(m.service), "/" + ServiceOf(m.service)]; }
    if expected[0] == '/' { assert expected == "/" + expected[1..]; }
  }

  /** A container that Docker inspects and lists as "/name" is matched by its name, with
      or without the slash, and looks for rules under both. */
  lemma OwnNamesMeet(name: string, project: string, m: Summary, service: string)
    requires name != "" && name[0] != '/' && "/" + name in m.names
    ensures StripName("/" + name) == name && StripName(name) == name
    ensures NameRank(name, project, m) == NameRank("/" + name, project, m) == 2
    ensures AliasOf(name, name, service) && AliasOf("/" + name, name, service)
  {
    assert ContainerAliases(name, service)[0] == "/" + name;
  }

  /** So does a Compose service, within its project. */
  lemma ServicesMeet(name: string, project: string, m: Summary, service: string)
    requires service != "" && service[0] != '/' && m.service == Some(service) && Eligible(project, m)
    ensures NameRank(service, project, m) > 0 && NameRank("/" + service, project, m) > 0
    ensures AliasOf(service, name, service) && AliasOf("/" + service, name, service)
  {
    var aliases := ContainerAliases(name, service);
    assert ("/" + service)[1..] == service;
    if service != name { assert aliases == ["/" + name, service, "/" + service]; }
  }

  /** A service label that begins with a slash, named as it is. */
  predicate ServiceGap(expected: string, m: Summary, name: string)
  {
    var service := ServiceOf(m.service);
    service != "" && service[0] == '/' && service != name && expected == service && !ListedAs(expected, m.names)
  }

  /** The container's own name, if it is not listed under it. */
  predicate OwnNameGap(expected: string, m: Summary, name: string)
  {
    (expected == name || expected == "/" + name) && !ListedAs(expected, m.names) && m.service != Some(Bare(expected))
  }

  /** Every alias matches where the project allows it, with exactly these exceptions. */
  lemma AliasesMatch(expected: string, project: string, m: Summary, name: string)
    requires expected != "" && Eligible(project, m)
    ensures AliasOf(expected, name, ServiceOf(m.service)) && NameRank(expected, project, m) == 0
            <==> ServiceGap(expected, m, name) || OwnNameGap(expected, m, name)
  {
    var aliases := ContainerAliases(name, ServiceOf(m.service));
    assert aliases[0] == "/" + name;
    if |aliases| == 3 { assert aliases == ["/" + name, ServiceOf(m.service), "/" + ServiceOf(m.service)]; }
    if expected[0] == '/' { assert expected == "/" + expected[1..]; }
    if expected == "/" + ServiceOf(m.service) { assert Bare(expected) == ServiceOf(m.service); }
  }

  // ----- rules without log text -----

  function StripExpr(e: Expr): Expr { if e.Log? then Log("") else e }

  function StripExprs(es: seq<Expr>): seq<Expr>
  {
    seq(|es|, i requires 0 <= i < |es| => StripExpr(es[i]))
  }

  function StripRule(r: Rule): Rule { Rule(StripExprs(r.exprs), r.tag) }

  lemma StripAppend(a: seq<Expr>, b: seq<Expr>)
    ensures StripExprs(a + b) == StripExprs(a) + StripExprs(b)
  {
  }

  /** Rules are generated from these parts only. */
  predicate SameButLog(a: RuleConfig, b: RuleConfig)
  {
    && Ips(a) == Ips(b) && a.proto == b.proto && a.srcPorts == b.srcPorts && a.dstPorts == b.dstPorts
    && a.verdict == b.verdict && (a.logPrefix == "" <==> b.logPrefix == "")
  }

  lemma StripLogPart(state: byte, a: RuleConfig, b: RuleConfig)
    requires a.logPrefix == "" <==> b.logPrefix == ""
    ensures StripExprs(LogPart(state, a)) == StripExprs(LogPart(state, b))
  {
  }

  lemma StrippedRulesAgree(inbound: bool, inverse: bool, state: byte, addr: seq<byte>, a: RuleConfig, b: RuleConfig, tag: string)
    requires SameButLog(a, b)
    ensures var x, y := CreateNFTRule(inbound, inverse, state, addr, a, 0, tag), CreateNFTRule(inbound, inverse, state, addr, b, 0, tag);
            (x.Some? <==> y.Some?) && (x.Some? ==> StripRule(x.value) == StripRule(y.value))
  {
    var x, y := CreateNFTRule(inbound, inverse, state, addr, a, 0, tag), CreateNFTRule(inbound, inverse, state, addr, b, 0, tag);
    if x.Some? {
      var front := AddrPart(inbound, addr, a).value + ProtoPart(a) + PortPart(inverse, a) + MatchStateExprs(state);
      StripLogPart(state, a, b);
      StripAppend(front, LogPart(state, a));
      StripAppend(front, LogPart(state, b));
      StripAppend(front + LogPart(state, a), [VerdictExpr(a, 0)]);
      StripAppend(front + LogPart(state, b), [VerdictExpr(b, 0)]);
    }
  }

  /** A description puts rule `r`, up to log text, into chain `c`. */
  ghost predicate Contributes(rd: RuleDetails, c: string, r: Rule)
  {
    exists q :: q in RulesOf(rd) && q.chain == c && StripRule(q.rule) == r
  }

  lemma SameContributions(a: RuleDetails, cfg: RuleConfig, c: string, r: Rule)
    requires SameButLog(a.cfg, cfg) && PlainVerdict(cfg.verdict)
    ensures Contributes(a, c, r) ==> Contributes(a.(cfg := cfg), c, r)
  {
    var b := a.(cfg := cfg);
    SamePlaces(a, cfg);
    if Contributes(a, c, r) {
      var q :| q in RulesOf(a) && q.chain == c && StripRule(q.rule) == r;
      var i :| 0 <= i < |RulesOf(a)| && RulesOf(a)[i] == q;
      assert RulesOf(b)[i] in RulesOf(b);
    }
  }

  predicate Alike(x: Option<Rule>, y: Option<Rule>)
  {
    (x.Some? <==> y.Some?) && (x.Some? ==> StripRule(x.value) == StripRule(y.value))
  }

  lemma ForwardAlike(a: RuleDetails, cfg: RuleConfig, state: byte)
    requires SameButLog(a.cfg, cfg)
    ensures Alike(ForwardRule(a, state), ForwardRule(a.(cfg := cfg), state))
  {
    StrippedRulesAgree(a.inbound, false, state, a.addr, a.cfg, cfg, a.contID);
  }

  lemma ReplyAlike(a: RuleDetails, cfg: RuleConfig)
    requires SameButLog(a.cfg, cfg)
    ensures Alike(ReplyRule(a), ReplyRule(a.(cfg := cfg)))
  {
    StrippedRulesAgree(!a.inbound, true, STATE_EST, a.addr, a.cfg, cfg, ReplyTag(a));
  }

  predicate SamePlacement(x: seq<Placed>, y: seq<Placed>)
  {
    |x| == |y| && forall i :: 0 <= i < |x| ==> x[i].chain == y[i].chain && StripRule(x[i].rule) == StripRule(y[i].rule)
  }

  function Listed(rd: RuleDetails, new_: Option<Rule>, est: Option<Rule>, newEst: Option<Rule>, reply: Option<Rule>): seq<Placed>
  {
    if rd.cfg.verdict.drop then (if new_.None? then [] else [Placed(rd.chain, new_.value)])
    else if rd.cfg.logPrefix == "" then
      if newEst.None? || reply.None? then [] else [Placed(rd.chain, newEst.value), Placed(ReplyChain(rd), reply.value)]
    else if new_.None? || est.None? || reply.None? then []
    else [Placed(rd.chain, new_.value), Placed(rd.chain, est.value), Placed(ReplyChain(rd), reply.value)]
  }

  lemma ListedAlike(a: RuleDetails, cfg: RuleConfig, n: Option<Rule>, n': Option<Rule>, e: Option<Rule>, e': Option<Rule>,
                    b: Option<Rule>, b': Option<Rule>, r: Option<Rule>, r': Option<Rule>)
    requires SameButLog(a.cfg, cfg) && Alike(n, n') && Alike(e, e') && Alike(b, b') && Alike(r, r')
    ensures SamePlacement(Listed(a, n, e, b, r), Listed(a.(cfg := cfg), n', e', b', r'))
  {
  }

  lemma RulesAreListed(rd: RuleDetails)
    requires PlainVerdict(rd.cfg.verdict)
    ensures RulesOf(rd) == Listed(rd, ForwardRule(rd, STATE_NEW), ForwardRule(rd, STATE_EST), ForwardRule(rd, STATE_NEW_EST), ReplyRule(rd))
  {
  }

  lemma SamePlaces(a: RuleDetails, cfg: RuleConfig)
    requires SameButLog(a.cfg, cfg) && PlainVerdict(cfg.verdict)
    ensures SamePlacement(RulesOf(a), RulesOf(a.(cfg := cfg)))
  {
    var b := a.(cfg := cfg);
    RulesAreListed(a);
    RulesAreListed(b);
    ForwardAlike(a, cfg, STATE_NEW);
    ForwardAlike(a, cfg, STATE_EST);
    ForwardAlike(a, cfg, STATE_NEW_EST);
    ReplyAlike(a, cfg);
    ListedAlike(a, cfg, ForwardRule(a, STATE_NEW), ForwardRule(b, STATE_NEW), ForwardRule(a, STATE_EST), ForwardRule(b, STATE_EST),
                ForwardRule(a, STATE_NEW_EST), ForwardRule(b, STATE_NEW_EST), ReplyRule(a), ReplyRule(b));
  }
}
