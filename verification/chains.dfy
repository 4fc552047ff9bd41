/** Committed firewall state and the evaluation of chains with jump, goto and
    return; what the dispatching main chain does with a packet. */
module Chains {
  import opened Nft
  import opened Names
  import opened Wrappers
  import opened Bytes
  import opened Config
  import opened Compiler

  /** The IPv4 filter table as Whalewall sees it. `irregular` names the chains that
      are hooked or of another type; `addrs` is the address map, if it exists. */
  datatype Fw = Fw(chains: map<string, seq<Rule>>, irregular: set<string>, addrs: Option<AddrMap>)

  /** Returned: a return verdict. Ended: no rule of the chain decided. Stuck: jump
      to a missing chain, or the jump depth is used up. */
  datatype Outcome = Dropped | Accepted | Queued | Returned | Ended | Stuck

  function Mapping(fw: Fw): AddrMap
  {
    if fw.addrs.Some? then fw.addrs.value else map[]
  }

  /** Evaluation of a rule list; `depth` bounds nested jumps and gotos. After a
      goto, return or end of the target resume the caller of the current chain. */
  ghost function Walk(fw: Fw, rules: seq<Rule>, p: Packet, depth: nat): Outcome
    decreases depth, |rules|
  {
    if rules == [] then Ended
    else
      match RunRule(rules[0], p, Mapping(fw))
      case Broke(q) => Walk(fw, rules[1..], q, depth)
      case Fell(_, q) => Walk(fw, rules[1..], q, depth)
      case Decided(kind, chain, q) =>
        match kind
        case VDrop => Dropped
        case VAccept => Accepted
        case VQueue => Queued
        case VReturn => Returned
        case VJump =>
          if depth == 0 || chain !in fw.chains then Stuck
          else
            var inner := Walk(fw, fw.chains[chain], q, depth - 1);
            if inner.Returned? || inner.Ended? then Walk(fw, rules[1..], q, depth) else inner
        case VGoto =>
          if depth == 0 || chain !in fw.chains then Stuck
          else Walk(fw, fw.chains[chain], q, depth - 1)
  }

  // ----- the fixed rules -----

  function SrcDispatcher(): Rule
  {
    Rule([PayloadLoad(NetworkHeader, 12, 4, 1), LookupVerdict(1)], "")
  }

  function DstDispatcher(): Rule
  {
    Rule([PayloadLoad(NetworkHeader, 16, 4, 1), LookupVerdict(1)], "")
  }

  function JumpRule(target: string): Rule
  {
    Rule([Counter, Verdict(VJump, target)], "")
  }

  /** createDropRule; the prefix is cut to the kernel's 127 bytes. */
  function DropRule(id: string): Rule
  {
    Rule([Counter, Log(Bound(ChainName(id) + " drop: ")), Verdict(VDrop, "")], id)
  }

  function Bound(s: string): string { if |s| > 127 then s[..127] else s }

  function GotoChain(id: string): MapVerdict { MapVerdict(VGoto, ChainName(id)) }

  lemma DropRuleDropsEverything(id: string, p: Packet, m: AddrMap)
    ensures RunRule(DropRule(id), p, m) == Decided(VDrop, "", p)
    ensures PlainRule(DropRule(id))
  {
    var a, b, c := Counter, Log(Bound(ChainName(id) + " drop: ")), Verdict(VDrop, "");
    assert DropRule(id).exprs == [a] + ([b] + [c]);
    ExecAppend([a], [b] + [c], map[], p, m);
    ExecSingle(a, map[], p, m);
    ExecAppend([b], [c], map[], p, m);
    ExecSingle(b, map[], p, m);
    ExecSingle(c, map[], p, m);
  }

  /** A dispatcher goes where the map sends the address, or does not match. */
  lemma DispatcherRuns(offset: nat, p: Packet, m: AddrMap)
    ensures var r := Rule([PayloadLoad(NetworkHeader, offset, 4, 1), LookupVerdict(1)], "");
            RunRule(r, p, m) ==
            if offset + 4 <= |p.net| && p.net[offset..offset + 4] in m
            then Decided(m[p.net[offset..offset + 4]].kind, m[p.net[offset..offset + 4]].chain, p) else Broke(p)
  {
    var load, look := PayloadLoad(NetworkHeader, offset, 4, 1), LookupVerdict(1);
    assert [load, look] == [load] + [look];
    ExecAppend([load], [look], map[], p, m);
    ExecSingle(load, map[], p, m);
    if offset + 4 <= |p.net| { ExecSingle(look, map[][1 := p.net[offset..offset + 4]], p, m); }
  }

  lemma JumpRuns(target: string, p: Packet, m: AddrMap)
    ensures RunRule(JumpRule(target), p, m) == Decided(VJump, target, p)
  {
    assert JumpRule(target).exprs == [Counter] + [Verdict(VJump, target)];
    ExecAppend([Counter], [Verdict(VJump, target)], map[], p, m);
    ExecSingle(Counter, map[], p, m);
    ExecSingle(Verdict(VJump, target), map[], p, m);
  }

  // ----- container chains -----

  ghost predicate AllPlain(rules: seq<Rule>)
  {
    forall i :: 0 <= i < |rules| ==> PlainRule(rules[i])
  }

  /** What a list of plain rules does: the first rule that decides, decides. */
  ghost function FirstVerdict(rules: seq<Rule>, p: Packet, m: AddrMap): Outcome
  {
    if rules == [] then Ended
    else
      var run := RunRule(rules[0], p, m);
      if run.Decided? then (if run.kind == VDrop then Dropped else Returned) else FirstVerdict(rules[1..], p, m)
  }

  lemma {:induction false} PlainWalk(fw: Fw, rules: seq<Rule>, p: Packet, depth: nat)
    requires AllPlain(rules)
    ensures Walk(fw, rules, p, depth) == FirstVerdict(rules, p, Mapping(fw))
  {
    if rules != [] {
      assert PlainRule(rules[0]);
      PlainRuleDropsOrReturns(rules[0], p, Mapping(fw));
      PlainWalk(fw, rules[1..], p, depth);
    }
  }

  /** A chain that contains an unconditional drop never falls off its end. */
  lemma {:induction false} DropStopsTheChain(rules: seq<Rule>, id: string, p: Packet, m: AddrMap)
    requires DropRule(id) in rules
    ensures FirstVerdict(rules, p, m) != Ended
  {
    if rules[0] == DropRule(id) {
      DropRuleDropsEverything(id, p, m);
    } else {
      assert DropRule(id) in rules[1..];
      DropStopsTheChain(rules[1..], id, p, m);
    }
  }

  /** With the drop at the head, the chain drops every packet. */
  lemma DropAtHeadQuarantines(rules: seq<Rule>, id: string, p: Packet, m: AddrMap)
    requires rules != [] && rules[0] == DropRule(id)
    ensures FirstVerdict(rules, p, m) == Dropped
  {
    DropRuleDropsEverything(id, p, m);
  }

  /** A rule that lets packets through or leaves them alone. */
  predicate ReturnOnly(r: Rule)
  {
    PlainRule(r) && r.exprs[|r.exprs| - 1].kind == VReturn
  }

  lemma {:induction false} ReturnStepsReturn(es: seq<Expr>, regs: Regs, p: Packet, m: AddrMap)
    requires es != [] && es[|es| - 1].Verdict? && es[|es| - 1].kind == VReturn
    requires forall i :: 0 <= i < |es| - 1 ==> PlainStep(es[i])
    ensures var run := Exec(es, regs, p, m); run.Decided? ==> run.kind == VReturn
  {
    if |es| > 1 {
      var r := ExecOne(es[0], regs, p, m);
      if r.Fell? { ReturnStepsReturn(es[1..], r.regs, r.pkt, m); }
    }
  }

  ghost predicate SomeDecides(rules: seq<Rule>, p: Packet, m: AddrMap)
  {
    exists r :: r in rules && RunRule(r, p, m).Decided?
  }

  /** Rules that only return let a packet through if any of them matches it; the
      rest of the chain decides otherwise. */
  lemma {:induction false} ReturnsFirst(front: seq<Rule>, rest: seq<Rule>, p: Packet, m: AddrMap)
    requires forall r :: r in front ==> ReturnOnly(r)
    ensures FirstVerdict(front + rest, p, m) == if SomeDecides(front, p, m) then Returned else FirstVerdict(rest, p, m)
  {
    if front == [] {
      assert front + rest == rest;
    } else {
      assert front[0] in front && ReturnOnly(front[0]);
      ReturnStepsReturn(front[0].exprs, map[], p, m);
      ReturnsFirst(front[1..], rest, p, m);
      assert (front + rest)[1..] == front[1..] + rest;
      assert SomeDecides(front, p, m) <==> RunRule(front[0], p, m).Decided? || SomeDecides(front[1..], p, m);
    }
  }

  /** So neither their order nor their number matters. */
  lemma ReturnsCommute(a: seq<Rule>, b: seq<Rule>, rest: seq<Rule>, p: Packet, m: AddrMap)
    requires forall r :: r in a ==> ReturnOnly(r)
    requires forall r :: r in a <==> r in b
    ensures FirstVerdict(a + rest, p, m) == FirstVerdict(b + rest, p, m)
  {
    ReturnsFirst(a, rest, p, m);
    ReturnsFirst(b, rest, p, m);
  }

  // ----- the main chain -----

  ghost predicate MainNormal(rules: seq<Rule>)
  {
    && |rules| >= 2 && rules[0] == SrcDispatcher() && rules[1] == DstDispatcher()
    && forall i :: 2 <= i < |rules| ==> SafeOwnedDrop(rules[i])
  }

  /** Every mapped address goes to an existing, plain container chain. */
  ghost predicate MapPlain(fw: Fw)
  {
    forall k :: k in Mapping(fw) ==>
      && Mapping(fw)[k].kind == VGoto && Mapping(fw)[k].chain in fw.chains
      && AllPlain(fw.chains[Mapping(fw)[k].chain])
  }

  function Slice(p: Packet, offset: nat): Option<seq<byte>>
  {
    if offset + 4 <= |p.net| then Some(p.net[offset..offset + 4]) else None
  }

  predicate Mapped(fw: Fw, k: Option<seq<byte>>)
  {
    k.Some? && k.value in Mapping(fw)
  }

  ghost function ChainDecides(fw: Fw, k: seq<byte>, p: Packet): Outcome
    requires k in Mapping(fw) && Mapping(fw)[k].chain in fw.chains
  {
    FirstVerdict(fw.chains[Mapping(fw)[k].chain], p, Mapping(fw))
  }

  /** The dispatcher in three lines: the source's chain alone; else the
      destination's chain; else only the owned drops. */
  ghost function DispatchSpec(fw: Fw, rules: seq<Rule>, p: Packet): Outcome
    requires MapPlain(fw) && MainNormal(rules)
  {
    if Mapped(fw, Slice(p, 12)) then ChainDecides(fw, Slice(p, 12).value, p)
    else if Mapped(fw, Slice(p, 16)) then ChainDecides(fw, Slice(p, 16).value, p)
    else if exists i :: 2 <= i < |rules| && RunRule(rules[i], p, Mapping(fw)).Decided? then Dropped else Ended
  }

  lemma {:induction false} SafeDropsWalk(fw: Fw, rules: seq<Rule>, p: Packet, depth: nat)
    requires forall i :: 0 <= i < |rules| ==> SafeOwnedDrop(rules[i])
    ensures Walk(fw, rules, p, depth) ==
            if exists i :: 0 <= i < |rules| && RunRule(rules[i], p, Mapping(fw)).Decided? then Dropped else Ended
  {
    if rules != [] {
      SafeOwnedDropIsSound(rules[0], p, Mapping(fw));
      SafeDropsWalk(fw, rules[1..], p, depth);
      if exists i :: 0 <= i < |rules[1..]| && RunRule(rules[1..][i], p, Mapping(fw)).Decided? {
        var i :| 0 <= i < |rules[1..]| && RunRule(rules[1..][i], p, Mapping(fw)).Decided?;
        assert RunRule(rules[i + 1], p, Mapping(fw)).Decided?;
      }
      if exists i :: 0 <= i < |rules| && RunRule(rules[i], p, Mapping(fw)).Decided? {
        var i :| 0 <= i < |rules| && RunRule(rules[i], p, Mapping(fw)).Decided?;
        if i > 0 { assert RunRule(rules[1..][i - 1], p, Mapping(fw)).Decided?; }
      }
    }
  }

  /** Dispatch refinement: evaluation of the main chain ends within one nested
      chain, equals the specification, and never accepts or queues a packet. */
  lemma DispatchRefinesSpec(fw: Fw, rules: seq<Rule>, p: Packet, depth: nat)
    requires MapPlain(fw) && MainNormal(rules) && depth >= 1
    ensures Walk(fw, rules, p, depth) == DispatchSpec(fw, rules, p)
    ensures var o := Walk(fw, rules, p, depth); o.Dropped? || o.Returned? || o.Ended?
  {
    var m := Mapping(fw);
    DispatcherRuns(12, p, m);
    DispatcherRuns(16, p, m);
    if Mapped(fw, Slice(p, 12)) {
      PlainWalk(fw, fw.chains[m[Slice(p, 12).value].chain], p, depth - 1);
    } else if Mapped(fw, Slice(p, 16)) {
      PlainWalk(fw, fw.chains[m[Slice(p, 16).value].chain], p, depth - 1);
      assert rules[1..][0] == rules[1];
    } else {
      assert rules[1..][0] == rules[1] && rules[1..][1..] == rules[2..];
      SafeDropsWalk(fw, rules[2..], p, depth);
      DropsByIndex(rules, p, m);
    }
    PlainOutcome(rules, fw, p);
  }

  lemma DropsByIndex(rules: seq<Rule>, p: Packet, m: AddrMap)
    requires |rules| >= 2
    ensures (exists i :: 0 <= i < |rules[2..]| && RunRule(rules[2..][i], p, m).Decided?) <==>
            (exists i :: 2 <= i < |rules| && RunRule(rules[i], p, m).Decided?)
  {
    if exists i :: 2 <= i < |rules| && RunRule(rules[i], p, m).Decided? {
      var i :| 2 <= i < |rules| && RunRule(rules[i], p, m).Decided?;
      assert rules[2..][i - 2] == rules[i];
    }
  }

  lemma PlainOutcome(rules: seq<Rule>, fw: Fw, p: Packet)
    requires MapPlain(fw) && MainNormal(rules)
    ensures var o := DispatchSpec(fw, rules, p); o.Dropped? || o.Returned? || o.Ended?
  {
    forall rs: seq<Rule> ensures var o := FirstVerdict(rs, p, Mapping(fw)); o.Dropped? || o.Returned? || o.Ended? {
      FirstVerdictKinds(rs, p, Mapping(fw));
    }
  }

  lemma {:induction false} FirstVerdictKinds(rules: seq<Rule>, p: Packet, m: AddrMap)
    ensures var o := FirstVerdict(rules, p, m); o.Dropped? || o.Returned? || o.Ended?
  {
    if rules != [] { FirstVerdictKinds(rules[1..], p, m); }
  }

  /** From a hook that begins with the jump, a packet Whalewall does not drop goes
      on to the hook's own rules: an allow never skips them. */
  lemma AllowedPacketsContinueInCaller(fw: Fw, rest: seq<Rule>, p: Packet, depth: nat)
    requires MapPlain(fw) && MAIN in fw.chains && MainNormal(fw.chains[MAIN]) && depth >= 2
    ensures Walk(fw, [JumpRule(MAIN)] + rest, p, depth) ==
            if DispatchSpec(fw, fw.chains[MAIN], p) == Dropped then Dropped else Walk(fw, rest, p, depth)
  {
    JumpRuns(MAIN, p, Mapping(fw));
    DispatchRefinesSpec(fw, fw.chains[MAIN], p, depth - 1);
    assert ([JumpRule(MAIN)] + rest)[1..] == rest;
  }

  // ----- logging does not change verdicts -----

  function WithPrefix(rd: RuleDetails, prefix: string): RuleDetails
  {
    rd.(cfg := rd.cfg.(logPrefix := prefix))
  }

  lemma PrefixOnlyLogs(rd: RuleDetails, prefix: string)
    requires ValidDetails(rd) && !rd.cfg.verdict.drop && rd.cfg.logPrefix == "" && prefix != ""
    ensures ValidDetails(WithPrefix(rd, prefix))
    ensures ReplyRule(rd) == ReplyRule(WithPrefix(rd, prefix))
    ensures ForwardRule(rd, STATE_NEW_EST).Some? && ReplyRule(rd).Some?
    ensures CreateNFTRules(rd) == Some([Placed(rd.chain, ForwardRule(rd, STATE_NEW_EST).value),
                                        Placed(ReplyChain(rd), ReplyRule(rd).value)])
  {
    var cfg, cfg' := rd.cfg, rd.cfg.(logPrefix := prefix);
    assert Ips(cfg) == Ips(cfg');
    AlwaysCompiles(rd.inbound, false, STATE_NEW_EST, rd.addr, cfg, rd.contID);
    AlwaysCompiles(!rd.inbound, true, STATE_EST, rd.addr, cfg, ReplyTag(rd));
    assert AddrPart(!rd.inbound, rd.addr, cfg) == AddrPart(!rd.inbound, rd.addr, cfg');
    assert PortPart(true, cfg) == PortPart(true, cfg');
    assert LogPart(STATE_EST, cfg) == LogPart(STATE_EST, cfg');
  }

  lemma SplitVerdict(n: Rule, a: Rule, b: Rule, ba: bool, bb: bool, rest: seq<Rule>, p: Packet, m: AddrMap)
    requires RunRule(n, p, m) == if ba || bb then Decided(VReturn, "", p) else Broke(p)
    requires RunRule(a, p, m) == if ba then Decided(VReturn, "", p) else Broke(p)
    requires RunRule(b, p, m) == if bb then Decided(VReturn, "", p) else Broke(p)
    ensures FirstVerdict([n] + rest, p, m) == FirstVerdict([a, b] + rest, p, m)
  {
    assert ([n] + rest)[1..] == rest;
    assert ([a, b] + rest)[1..] == [b] + rest && ([b] + rest)[1..] == rest;
  }

  /** Splitting off a logged rule for new connections decides like the single
      rule for new and established ones, in front of any further rules; the
      established rule of the peer is the same. */
  lemma LogSplitIsEquivalent(rd: RuleDetails, prefix: string, rest: seq<Rule>, p: Packet, m: AddrMap)
    requires ValidDetails(rd) && !rd.cfg.verdict.drop && rd.cfg.logPrefix == "" && prefix != ""
    ensures ReplyRule(rd) == ReplyRule(WithPrefix(rd, prefix))
    ensures var logged := WithPrefix(rd, prefix);
            && ForwardRule(rd, STATE_NEW_EST).Some?
            && ForwardRule(logged, STATE_NEW).Some? && ForwardRule(logged, STATE_EST).Some?
            && FirstVerdict([ForwardRule(rd, STATE_NEW_EST).value] + rest, p, m)
               == FirstVerdict([ForwardRule(logged, STATE_NEW).value, ForwardRule(logged, STATE_EST).value] + rest, p, m)
  {
    PrefixOnlyLogs(rd, prefix);
    var logged := WithPrefix(rd, prefix);
    CompiledRuleMeansConfig(rd.inbound, false, STATE_NEW_EST, rd.addr, rd.cfg, rd.contID, p, m);
    CompiledRuleMeansConfig(rd.inbound, false, STATE_NEW, rd.addr, logged.cfg, rd.contID, p, m);
    CompiledRuleMeansConfig(rd.inbound, false, STATE_EST, rd.addr, logged.cfg, rd.contID, p, m);
    var b := Matches(rd.inbound, false, rd.addr, rd.cfg, p);
    assert Ips(rd.cfg) == Ips(logged.cfg);
    assert b == Matches(rd.inbound, false, rd.addr, logged.cfg, p);
    SplitVerdict(ForwardRule(rd, STATE_NEW_EST).value, ForwardRule(logged, STATE_NEW).value,
                 ForwardRule(logged, STATE_EST).value, b && StateMatches(STATE_NEW, p.ct),
                 b && StateMatches(STATE_EST, p.ct), rest, p, m);
  }
}
