/** The part of the nftables rule machine that Whalewall's rules use: packets,
    expressions over registers, and the evaluation of one rule. */
module Nft {
  import opened Bytes

  /** Connection tracking state of a packet, as the ct expression reports it. */
  datatype CtState = CtInvalid | CtEstablished | CtRelated | CtNew | CtUntracked

  function StateBit(c: CtState): byte
  {
    match c
    case CtInvalid => 1
    case CtEstablished => 2
    case CtRelated => 4
    case CtNew => 8
    case CtUntracked => 64
  }

  /** `net` and `transport` start at the respective headers; a fragment without
      a transport header has an empty `transport`. `mark` is packet metadata. */
  datatype Packet = Packet(net: seq<byte>, transport: seq<byte>, l4proto: byte, ct: CtState, mark: seq<byte>)

  datatype Base = NetworkHeader | TransportHeader

  datatype CmpOp = CmpEq | CmpNeq | CmpGte | CmpLte

  datatype VerdictKind = VDrop | VAccept | VReturn | VJump | VGoto | VQueue

  /** A set element; in interval sets `intervalEnd` marks an exclusive end. */
  datatype SetElem = SetElem(key: seq<byte>, intervalEnd: bool)

  /** A verdict stored in the address map. */
  datatype MapVerdict = MapVerdict(kind: VerdictKind, chain: string)

  type AddrMap = map<seq<byte>, MapVerdict>

  /** Anonymous sets are values inside the lookup that uses them. */
  datatype Expr =
    | PayloadLoad(base: Base, offset: nat, len: nat, dreg: nat)
    | PayloadWrite(wbase: Base, woffset: nat, wlen: nat, wreg: nat)
    | MetaLoad(lreg: nat)
    | MetaSet(mreg: nat)
    | CtLoad(creg: nat)
    | CtSet(csreg: nat)
    | Cmp(op: CmpOp, reg: nat, data: seq<byte>)
    | Bitwise(bsreg: nat, bdreg: nat, mask: seq<byte>, xor: seq<byte>)
    | LookupSet(sreg: nat, elems: seq<SetElem>, interval: bool)
    | LookupVerdict(vsreg: nat)
    | Counter
    | Log(prefix: string)
    | Verdict(kind: VerdictKind, chain: string)
    | Queue(num: nat)

  /** `tag` is the rule's user data: the owning container ID, or empty. */
  datatype Rule = Rule(exprs: seq<Expr>, tag: string)

  type Regs = map<nat, seq<byte>>

  function Reg(regs: Regs, r: nat): seq<byte>
  {
    if r in regs then regs[r] else []
  }

  function Header(p: Packet, base: Base): seq<byte>
  {
    if base.NetworkHeader? then p.net else p.transport
  }

  predicate KeyLeq(a: seq<byte>, b: seq<byte>)
  {
    |a| == |b| && !Precedes(b, a)
  }

  predicate Compare(op: CmpOp, a: seq<byte>, data: seq<byte>)
  {
    match op
    case CmpEq => a == data
    case CmpNeq => a != data
    case CmpGte => KeyLeq(data, a)
    case CmpLte => KeyLeq(a, data)
  }

  ghost predicate GreatestKey(elems: seq<SetElem>, key: seq<byte>, i: int)
  {
    && 0 <= i < |elems| && KeyLeq(elems[i].key, key)
    && forall j :: 0 <= j < |elems| && KeyLeq(elems[j].key, key) ==> KeyLeq(elems[j].key, elems[i].key)
  }

  ghost predicate InSet(elems: seq<SetElem>, interval: bool, key: seq<byte>)
  {
    if interval then exists i :: GreatestKey(elems, key, i) && !elems[i].intervalEnd
    else exists i :: 0 <= i < |elems| && elems[i].key == key
  }

  function MaskBytes(s: seq<byte>, mask: seq<byte>, xor: seq<byte>): seq<byte>
  {
    if s == [] || mask == [] || xor == [] then []
    else [MaskXor(s[0], mask[0], xor[0])] + MaskBytes(s[1..], mask[1..], xor[1..])
  }

  /** Broke: the rule does not match. Fell: go on with the next expression (or,
      after the last one, with the next rule). Decided: a verdict was reached. */
  datatype Run =
    | Broke(pkt: Packet)
    | Fell(regs: Regs, pkt: Packet)
    | Decided(kind: VerdictKind, chain: string, pkt: Packet)

  ghost function ExecOne(e: Expr, regs: Regs, p: Packet, m: AddrMap): Run
  {
    match e
    case PayloadLoad(base, offset, len, dreg) =>
      if offset + len <= |Header(p, base)| then Fell(regs[dreg := Header(p, base)[offset..offset + len]], p)
      else Broke(p)
    case PayloadWrite(base, offset, len, sreg) =>
      var h, data := Header(p, base), Reg(regs, sreg);
      if offset + len <= |h| && |data| == len then
        var h' := h[..offset] + data + h[offset + len..];
        Fell(regs, if base.NetworkHeader? then p.(net := h') else p.(transport := h'))
      else Broke(p)
    case MetaLoad(r) => Fell(regs[r := [p.l4proto]], p)
    case MetaSet(r) => Fell(regs, p.(mark := Reg(regs, r)))
    case CtLoad(r) => Fell(regs[r := [StateBit(p.ct), 0, 0, 0]], p)
    case CtSet(r) => Fell(regs, p.(mark := Reg(regs, r)))
    case Cmp(op, r, data) => if Compare(op, Reg(regs, r), data) then Fell(regs, p) else Broke(p)
    case Bitwise(s, d, mask, xor) => Fell(regs[d := MaskBytes(Reg(regs, s), mask, xor)], p)
    case LookupSet(s, elems, interval) => if InSet(elems, interval, Reg(regs, s)) then Fell(regs, p) else Broke(p)
    case LookupVerdict(s) =>
      var key := Reg(regs, s);
      if key in m then Decided(m[key].kind, m[key].chain, p) else Broke(p)
    case Counter => Fell(regs, p)
    case Log(_) => Fell(regs, p)
    case Verdict(kind, chain) => Decided(kind, chain, p)
    case Queue(_) => Decided(VQueue, "", p)
  }

  ghost function Exec(es: seq<Expr>, regs: Regs, p: Packet, m: AddrMap): Run
  {
    if es == [] then Fell(regs, p)
    else
      var r := ExecOne(es[0], regs, p, m);
      if r.Fell? then Exec(es[1..], r.regs, r.pkt, m) else r
  }

  ghost function RunRule(r: Rule, p: Packet, m: AddrMap): Run
  {
    Exec(r.exprs, map[], p, m)
  }

  lemma {:induction false} ExecAppend(a: seq<Expr>, b: seq<Expr>, regs: Regs, p: Packet, m: AddrMap)
    ensures Exec(a + b, regs, p, m) ==
            var r := Exec(a, regs, p, m);
            if r.Fell? then Exec(b, r.regs, r.pkt, m) else r
  {
    if a == [] {
      assert a + b == b;
    } else {
      assert (a + b)[0] == a[0] && (a + b)[1..] == a[1..] + b;
      var r := ExecOne(a[0], regs, p, m);
      if r.Fell? { ExecAppend(a[1..], b, r.regs, r.pkt, m); }
    }
  }

  // ----- guards: expression groups that only test the packet -----

  /** Whatever the registers hold on entry, the group lets `p` through unchanged
      exactly when `b`. */
  ghost predicate IsGuard(g: seq<Expr>, p: Packet, m: AddrMap, b: bool)
  {
    forall regs: Regs ::
      var r := Exec(g, regs, p, m);
      r.pkt == p && (if b then r.Fell? else r.Broke?)
  }

  lemma GuardAppend(g1: seq<Expr>, b1: bool, g2: seq<Expr>, b2: bool, p: Packet, m: AddrMap)
    requires IsGuard(g1, p, m, b1) && IsGuard(g2, p, m, b2)
    ensures IsGuard(g1 + g2, p, m, b1 && b2)
  {
    forall regs: Regs
      ensures var r := Exec(g1 + g2, regs, p, m); r.pkt == p && (if b1 && b2 then r.Fell? else r.Broke?)
    {
      ExecAppend(g1, g2, regs, p, m);
      var r := Exec(g1, regs, p, m);
      if r.Fell? { assert Exec(g2, r.regs, r.pkt, m).pkt == p; }
    }
  }

  /** A guarded verdict decides exactly on the packets the guard lets through. */
  lemma GuardThen(g: seq<Expr>, b: bool, kind: VerdictKind, chain: string, p: Packet, m: AddrMap)
    requires IsGuard(g, p, m, b)
    ensures forall tag: string :: RunRule(Rule(g + [Verdict(kind, chain)], tag), p, m)
                                  == if b then Decided(kind, chain, p) else Broke(p)
  {
    ExecAppend(g, [Verdict(kind, chain)], map[], p, m);
    var r := Exec(g, map[], p, m);
    assert r.pkt == p;
  }

  // ----- rules that can only drop -----

  /** isSafeOwnedDropRule's scan of one expression before the last. */
  predicate SafeStep(e: Expr)
  {
    e.PayloadLoad? || e.MetaLoad? || e.CtLoad? || e.Cmp? || e.Bitwise? || e.Counter? || e.Log?
  }

  /** isSafeOwnedDropRule: tagged, only loads and tests, and a final drop. */
  predicate SafeOwnedDrop(r: Rule)
  {
    && r.tag != "" && r.exprs != []
    && (forall i :: 0 <= i < |r.exprs| - 1 ==> SafeStep(r.exprs[i]))
    && var last := r.exprs[|r.exprs| - 1];
       last.Verdict? && last.kind == VDrop
  }

  ghost predicate OnlyDrops(run: Run, p: Packet)
  {
    run.pkt == p && (run.Broke? || (run.Decided? && run.kind == VDrop))
  }

  lemma {:induction false} SafeStepsOnlyDrop(es: seq<Expr>, regs: Regs, p: Packet, m: AddrMap)
    requires es != [] && es[|es| - 1].Verdict? && es[|es| - 1].kind == VDrop
    requires forall i :: 0 <= i < |es| - 1 ==> SafeStep(es[i])
    ensures OnlyDrops(Exec(es, regs, p, m), p)
  {
    if |es| > 1 {
      var r := ExecOne(es[0], regs, p, m);
      if r.Fell? { SafeStepsOnlyDrop(es[1..], r.regs, r.pkt, m); }
    }
  }

  /** Whatever the packet, a rule the repair keeps drops it or leaves it alone. */
  lemma SafeOwnedDropIsSound(r: Rule, p: Packet, m: AddrMap)
    requires SafeOwnedDrop(r)
    ensures OnlyDrops(RunRule(r, p, m), p)
  {
    SafeStepsOnlyDrop(r.exprs, map[], p, m);
  }

  // ----- rules of container chains -----

  /** A rule of a container chain: tests, then drop or return to the caller. */
  predicate PlainStep(e: Expr)
  {
    SafeStep(e) || e.LookupSet?
  }

  predicate PlainRule(r: Rule)
  {
    && r.exprs != []
    && (forall i :: 0 <= i < |r.exprs| - 1 ==> PlainStep(r.exprs[i]))
    && var last := r.exprs[|r.exprs| - 1];
       last.Verdict? && (last.kind == VDrop || last.kind == VReturn)
  }

  ghost predicate DropsOrReturns(run: Run, p: Packet)
  {
    run.pkt == p && (run.Broke? || (run.Decided? && (run.kind == VDrop || run.kind == VReturn)))
  }

  lemma {:induction false} PlainStepsDropOrReturn(es: seq<Expr>, regs: Regs, p: Packet, m: AddrMap)
    requires es != [] && es[|es| - 1].Verdict? && (es[|es| - 1].kind == VDrop || es[|es| - 1].kind == VReturn)
    requires forall i :: 0 <= i < |es| - 1 ==> PlainStep(es[i])
    ensures DropsOrReturns(Exec(es, regs, p, m), p)
  {
    if |es| > 1 {
      var r := ExecOne(es[0], regs, p, m);
      if r.Fell? { PlainStepsDropOrReturn(es[1..], r.regs, r.pkt, m); }
    }
  }

  lemma PlainRuleDropsOrReturns(r: Rule, p: Packet, m: AddrMap)
    requires PlainRule(r)
    ensures DropsOrReturns(RunRule(r, p, m), p)
  {
    PlainStepsDropOrReturn(r.exprs, map[], p, m);
  }

  // ----- rule comparison -----

  /** rulesEqual compares lookups of anonymous sets by register only, because
      the kernel renames such sets; everything else must be identical. */
  predicate ExprsAlike(a: Expr, b: Expr)
  {
    if a.LookupSet? && b.LookupSet? then a.sreg == b.sreg else a == b
  }

  predicate RulesEqual(a: Rule, b: Rule)
  {
    && a.tag == b.tag && |a.exprs| == |b.exprs|
    && forall i :: 0 <= i < |a.exprs| ==> ExprsAlike(a.exprs[i], b.exprs[i])
  }

  /** The rules Whalewall searches for have no anonymous set, and for those the
      comparison is equality. */
  lemma RulesEqualIsEquality(a: Rule, b: Rule)
    requires forall i :: 0 <= i < |a.exprs| ==> !a.exprs[i].LookupSet?
    ensures RulesEqual(a, b) <==> a == b
  {
    if RulesEqual(a, b) {
      forall i | 0 <= i < |a.exprs| ensures a.exprs[i] == b.exprs[i] {
        assert ExprsAlike(a.exprs[i], b.exprs[i]);
      }
      assert a.exprs == b.exprs;
    }
  }
}
