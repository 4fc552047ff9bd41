/** createNFTRules: from a declarative rule to register machine expressions,
    and what those expressions match. */
module Compiler {
  import opened Bytes
  import opened Nft
  import opened Config
  import opened Wrappers
  import Intervals

  const SRC_ADDR_OFFSET := 12
  const DST_ADDR_OFFSET := 16
  const SRC_PORT_OFFSET := 0
  const DST_PORT_OFFSET := 2

  const STATE_NEW: byte := 8
  const STATE_EST: byte := 6
  const STATE_NEW_EST: byte := 14

  const TCP_NUMBER: byte := 6
  const UDP_NUMBER: byte := 17

  // ----- what a rule is meant to match -----

  /** The number in a header field, if the packet has the field. */
  function Field(p: Packet, base: Base, offset: nat, len: nat): Option<nat>
  {
    if offset + len <= |Header(p, base)| then Some(Val(Header(p, base)[offset..offset + len])) else None
  }

  function AddrField(p: Packet, offset: nat): Option<nat> { Field(p, NetworkHeader, offset, 4) }
  function PortField(p: Packet, offset: nat): Option<nat> { Field(p, TransportHeader, offset, 2) }

  predicate AddrMatches(a: AddrOrRange, x: nat)
  {
    match a
    case Addr(y) => x == y
    case Range(l, h) => l <= x <= h
    case Neither => false
  }

  predicate PortMatches(q: RulePorts, x: nat)
  {
    if q.single != 0 then x == q.single else q.min <= x <= q.max
  }

  ghost predicate AddrIn(addrs: seq<AddrOrRange>, x: Option<nat>)
  {
    x.Some? && exists i :: 0 <= i < |addrs| && AddrMatches(addrs[i], x.value)
  }

  ghost predicate PortIn(ports: seq<RulePorts>, x: Option<nat>)
  {
    x.Some? && exists i :: 0 <= i < |ports| && PortMatches(ports[i], x.value)
  }

  function ProtoNumber(proto: Protocol): byte
  {
    if proto.Udp? then UDP_NUMBER else TCP_NUMBER
  }

  /** The declarative meaning of one generated rule, apart from connection state:
      own address, peer addresses, protocol and ports. An inbound rule has the
      own address as destination; an established (`inverse`) rule exchanges the
      roles of the ports. */
  ghost predicate Matches(inbound: bool, inverse: bool, addr: seq<byte>, cfg: RuleConfig, p: Packet)
  {
    var ownOffset := if inbound then DST_ADDR_OFFSET else SRC_ADDR_OFFSET;
    var peerOffset := if inbound then SRC_ADDR_OFFSET else DST_ADDR_OFFSET;
    var srcOffset := if inverse then DST_PORT_OFFSET else SRC_PORT_OFFSET;
    var dstOffset := if inverse then SRC_PORT_OFFSET else DST_PORT_OFFSET;
    && (addr != [] ==> AddrField(p, ownOffset) == Some(Val(addr)))
    && (Ips(cfg) != [] ==> AddrIn(Ips(cfg), AddrField(p, peerOffset)))
    && (!cfg.proto.InvalidProto? ==> p.l4proto == ProtoNumber(cfg.proto))
    && (cfg.srcPorts != [] ==> PortIn(cfg.srcPorts, PortField(p, srcOffset)))
    && (cfg.dstPorts != [] ==> PortIn(cfg.dstPorts, PortField(p, dstOffset)))
  }

  predicate StateMatches(state: byte, c: CtState)
  {
    match state
    case 8 => c.CtNew?
    case 6 => c.CtEstablished? || c.CtRelated?
    case 14 => c.CtNew? || c.CtEstablished? || c.CtRelated?
    case _ => false
  }

  predicate KnownState(state: byte)
  {
    state == STATE_NEW || state == STATE_EST || state == STATE_NEW_EST
  }

  predicate ValidAddrBytes(addr: seq<byte>) { addr == [] || |addr| == 4 }

  /** What validation guarantees about the parts a rule is generated from. */
  predicate ValidParts(cfg: RuleConfig)
  {
    && (forall i :: 0 <= i < |Ips(cfg)| ==> ValidAddrs(Ips(cfg)[i]))
    && (forall i :: 0 <= i < |cfg.srcPorts| ==> ValidPorts(cfg.srcPorts[i]))
    && (forall i :: 0 <= i < |cfg.dstPorts| ==> ValidPorts(cfg.dstPorts[i]))
  }

  /** validateConfig admits no chain or queue verdict. */
  predicate PlainVerdict(v: PolicyVerdict)
  {
    v.chain == "" && v.queue == 0 && v.inputEstQueue == 0 && v.outputEstQueue == 0
  }

  // ----- generation -----

  function LoadAddr(offset: nat): Expr { PayloadLoad(NetworkHeader, offset, 4, 1) }
  function LoadPort(offset: nat): Expr { PayloadLoad(TransportHeader, offset, 2, 1) }

  function MatchAddrExprs(addr: seq<byte>, offset: nat): seq<Expr>
  {
    [LoadAddr(offset), Cmp(CmpEq, 1, addr)]
  }

  function MatchProtoExprs(proto: byte): seq<Expr>
  {
    [MetaLoad(1), Cmp(CmpEq, 1, [proto])]
  }

  function MatchStateExprs(state: byte): seq<Expr>
  {
    [CtLoad(1), Bitwise(1, 1, [state, 0, 0, 0], [0, 0, 0, 0]), Cmp(CmpNeq, 1, [0, 0, 0, 0])]
  }

  /** Distinct values in increasing order: the map-and-sort of the plain sets. */
  function Distinct(values: seq<nat>): seq<nat>
  {
    if values == [] then [] else InsertDistinct(Distinct(values[..|values| - 1]), values[|values| - 1])
  }

  function InsertDistinct(s: seq<nat>, v: nat): seq<nat>
  {
    if s == [] || v < s[0] then [v] + s
    else if v == s[0] then s
    else [s[0]] + InsertDistinct(s[1..], v)
  }

  function PlainElems(values: seq<nat>, width: nat): seq<SetElem>
  {
    seq(|values|, i requires 0 <= i < |values| => SetElem(Big(values[i], width), false))
  }

  function IntervalElems(ks: seq<Intervals.Key>, width: nat): seq<SetElem>
  {
    seq(|ks|, i requires 0 <= i < |ks| => SetElem(Big(ks[i].value, width), ks[i].intervalEnd))
  }

  function AddrInterval(a: AddrOrRange): Intervals.Interval
  {
    match a
    case Addr(x) => Intervals.Interval(x, x)
    case Range(l, h) => Intervals.Interval(l, h)
    case Neither => Intervals.Interval(0, 0)
  }

  function PortInterval(q: RulePorts): Intervals.Interval
  {
    if q.single != 0 then Intervals.Interval(q.single, q.single) else Intervals.Interval(q.min, q.max)
  }

  function SetExpr(ivs: seq<Intervals.Interval>, interval: bool, top: nat, width: nat): Expr
  {
    if interval then LookupSet(1, IntervalElems(Intervals.Keys(Intervals.Merged(ivs), top), width), true)
    else LookupSet(1, PlainElems(Distinct(Map((iv: Intervals.Interval) => iv.low, ivs)), width), false)
  }

  /** createIPExprs; an address that is neither form is an error. */
  function IPExprs(addrs: seq<AddrOrRange>, offset: nat): Option<seq<Expr>>
    requires addrs != []
  {
    if |addrs| == 1 then
      match addrs[0]
      case Addr(x) => Some(MatchAddrExprs(Big(x, 4), offset))
      case Range(l, h) => Some([LoadAddr(offset), Cmp(CmpGte, 1, Big(l, 4)), Cmp(CmpLte, 1, Big(h, 4))])
      case Neither => None
    else if exists i :: 0 <= i < |addrs| && addrs[i].Neither? then None
    else
      var interval := exists i :: 0 <= i < |addrs| && addrs[i].Range?;
      Some([LoadAddr(offset), SetExpr(Map(AddrInterval, addrs), interval, MAX_ADDR, 4)])
  }

  /** createPortExprs */
  function PortExprs(ports: seq<RulePorts>, offset: nat): seq<Expr>
    requires ports != []
  {
    if |ports| == 1 then
      if ports[0].single != 0 then [LoadPort(offset), Cmp(CmpEq, 1, Big(ports[0].single, 2))]
      else [LoadPort(offset), Cmp(CmpGte, 1, Big(ports[0].min, 2)), Cmp(CmpLte, 1, Big(ports[0].max, 2))]
    else
      var interval := exists i :: 0 <= i < |ports| && ports[i].single == 0;
      [LoadPort(offset), SetExpr(Map(PortInterval, ports), interval, MAX_PORT, 2)]
  }

  function AddrPart(inbound: bool, addr: seq<byte>, cfg: RuleConfig): Option<seq<Expr>>
  {
    var own := if addr == [] then []
               else MatchAddrExprs(addr, if inbound then DST_ADDR_OFFSET else SRC_ADDR_OFFSET);
    if Ips(cfg) == [] then Some(own)
    else
      var peer := IPExprs(Ips(cfg), if inbound then SRC_ADDR_OFFSET else DST_ADDR_OFFSET);
      if peer.None? then None
      else Some(if inbound then peer.value + own else own + peer.value)
  }

  function ProtoPart(cfg: RuleConfig): seq<Expr>
  {
    if cfg.proto.InvalidProto? then [] else MatchProtoExprs(ProtoNumber(cfg.proto))
  }

  function PortPart(inverse: bool, cfg: RuleConfig): seq<Expr>
  {
    var src := if cfg.srcPorts == [] then []
               else PortExprs(cfg.srcPorts, if inverse then DST_PORT_OFFSET else SRC_PORT_OFFSET);
    var dst := if cfg.dstPorts == [] then []
               else PortExprs(cfg.dstPorts, if inverse then SRC_PORT_OFFSET else DST_PORT_OFFSET);
    if inverse then dst + src else src + dst
  }

  /** The counter, and the log expression of rules for new connections. */
  function LogPart(state: byte, cfg: RuleConfig): seq<Expr>
  {
    [Counter] + (if state == STATE_NEW && cfg.logPrefix != "" then [Log(cfg.logPrefix)] else [])
  }

  function VerdictExpr(cfg: RuleConfig, queue: nat): Expr
  {
    if cfg.verdict.chain != "" then Verdict(VJump, cfg.verdict.chain)
    else if queue != 0 then Queue(queue)
    else if cfg.verdict.drop then Verdict(VDrop, "")
    else Verdict(VReturn, "")
  }

  /** createNFTRule */
  function CreateNFTRule(inbound: bool, inverse: bool, state: byte, addr: seq<byte>, cfg: RuleConfig,
                         queue: nat, tag: string): Option<Rule>
  {
    var addrs := AddrPart(inbound, addr, cfg);
    if addrs.None? then None
    else Some(Rule(addrs.value + ProtoPart(cfg) + PortPart(inverse, cfg) + MatchStateExprs(state)
                   + LogPart(state, cfg) + [VerdictExpr(cfg, queue)], tag))
  }

  // ----- each group is a guard for its part of the meaning -----

  /** Run with `data` in register 1, the group lets `p` through unchanged exactly
      when `b`, and keeps the registers. */
  ghost predicate IsTest(test: seq<Expr>, data: seq<byte>, p: Packet, m: AddrMap, b: bool)
  {
    forall regs: Regs | Reg(regs, 1) == data ::
      Exec(test, regs, p, m) == if b then Fell(regs, p) else Broke(p)
  }

  lemma ExecSingle(e: Expr, regs: Regs, p: Packet, m: AddrMap)
    ensures Exec([e], regs, p, m) == ExecOne(e, regs, p, m)
  {
    assert [e][1..] == [];
  }

  lemma CmpTest(op: CmpOp, data: seq<byte>, loaded: seq<byte>, p: Packet, m: AddrMap)
    ensures IsTest([Cmp(op, 1, data)], loaded, p, m, Compare(op, loaded, data))
  {
    forall regs: Regs | Reg(regs, 1) == loaded
      ensures Exec([Cmp(op, 1, data)], regs, p, m) == if Compare(op, loaded, data) then Fell(regs, p) else Broke(p)
    {
      ExecSingle(Cmp(op, 1, data), regs, p, m);
    }
  }

  lemma LoadThenTest(base: Base, offset: nat, len: nat, test: seq<Expr>, b: bool, p: Packet, m: AddrMap)
    requires offset + len <= |Header(p, base)| ==> IsTest(test, Header(p, base)[offset..offset + len], p, m, b)
    requires offset + len > |Header(p, base)| ==> !b
    ensures IsGuard([PayloadLoad(base, offset, len, 1)] + test, p, m, b)
  {
    var load := PayloadLoad(base, offset, len, 1);
    forall regs: Regs
      ensures var r := Exec([load] + test, regs, p, m); r.pkt == p && (if b then r.Fell? else r.Broke?)
    {
      ExecAppend([load], test, regs, p, m);
      ExecSingle(load, regs, p, m);
    }
  }

  lemma EqualityGuard(base: Base, offset: nat, data: seq<byte>, p: Packet, m: AddrMap)
    ensures IsGuard([PayloadLoad(base, offset, |data|, 1), Cmp(CmpEq, 1, data)], p, m,
                    Field(p, base, offset, |data|) == Some(Val(data)))
  {
    var b := Field(p, base, offset, |data|) == Some(Val(data));
    if offset + |data| <= |Header(p, base)| {
      var h := Header(p, base)[offset..offset + |data|];
      CmpTest(CmpEq, data, h, p, m);
      if Val(h) == Val(data) { ValInjective(h, data); }
    }
    LoadThenTest(base, offset, |data|, [Cmp(CmpEq, 1, data)], b, p, m);
    assert [PayloadLoad(base, offset, |data|, 1)] + [Cmp(CmpEq, 1, data)]
           == [PayloadLoad(base, offset, |data|, 1), Cmp(CmpEq, 1, data)];
  }

  lemma KeyLeqIsNumeric(a: seq<byte>, b: seq<byte>)
    requires |a| == |b|
    ensures KeyLeq(a, b) <==> Val(a) <= Val(b)
  {
    PrecedesIsLess(b, a);
  }

  ghost predicate FieldBetween(p: Packet, base: Base, offset: nat, len: nat, lo: nat, hi: nat)
  {
    var x := Field(p, base, offset, len);
    x.Some? && lo <= x.value && x.value <= hi
  }

  /** The two bounds on register 1, as numbers. */
  lemma RangeRun(lo: seq<byte>, hi: seq<byte>, data: seq<byte>, l: nat, h: nat, x: nat, regs: Regs, p: Packet, m: AddrMap)
    requires |lo| == |hi| == |data| && l == Val(lo) && h == Val(hi) && x == Val(data) && Reg(regs, 1) == data
    ensures Exec([Cmp(CmpGte, 1, lo)] + [Cmp(CmpLte, 1, hi)], regs, p, m) == if l <= x && x <= h then Fell(regs, p) else Broke(p)
  {
    KeyLeqIsNumeric(lo, data);
    KeyLeqIsNumeric(data, hi);
    ExecAppend([Cmp(CmpGte, 1, lo)], [Cmp(CmpLte, 1, hi)], regs, p, m);
    ExecSingle(Cmp(CmpGte, 1, lo), regs, p, m);
    ExecSingle(Cmp(CmpLte, 1, hi), regs, p, m);
  }

  lemma LoadedRun(load: Expr, rest: seq<Expr>, regs: Regs, p: Packet, m: AddrMap)
    ensures Exec([load] + rest, regs, p, m) ==
            var r := ExecOne(load, regs, p, m); if r.Fell? then Exec(rest, r.regs, r.pkt, m) else r
  {
    ExecAppend([load], rest, regs, p, m);
    ExecSingle(load, regs, p, m);
  }

  lemma RangeLoadRun(base: Base, offset: nat, lo: seq<byte>, hi: seq<byte>, l: nat, h: nat, regs: Regs, p: Packet, m: AddrMap)
    requires |lo| == |hi| && l == Val(lo) && h == Val(hi)
    ensures var r := Exec([PayloadLoad(base, offset, |lo|, 1)] + ([Cmp(CmpGte, 1, lo)] + [Cmp(CmpLte, 1, hi)]), regs, p, m);
            r.pkt == p && (if FieldBetween(p, base, offset, |lo|, l, h) then r.Fell? else r.Broke?)
  {
    LoadedRun(PayloadLoad(base, offset, |lo|, 1), [Cmp(CmpGte, 1, lo)] + [Cmp(CmpLte, 1, hi)], regs, p, m);
    if offset + |lo| <= |Header(p, base)| {
      var data := Header(p, base)[offset..offset + |lo|];
      RangeRun(lo, hi, data, l, h, Val(data), regs[1 := data], p, m);
    }
  }

  /** gte and lte on network byte order data are numeric bounds. */
  lemma RangeGuard(base: Base, offset: nat, lo: seq<byte>, hi: seq<byte>, p: Packet, m: AddrMap)
    requires |lo| == |hi|
    ensures IsGuard([PayloadLoad(base, offset, |lo|, 1), Cmp(CmpGte, 1, lo), Cmp(CmpLte, 1, hi)], p, m,
                    FieldBetween(p, base, offset, |lo|, Val(lo), Val(hi)))
  {
    var load, ge, le := PayloadLoad(base, offset, |lo|, 1), Cmp(CmpGte, 1, lo), Cmp(CmpLte, 1, hi);
    assert [load] + ([ge] + [le]) == [load, ge, le];
    forall regs: Regs
      ensures var r := Exec([load, ge, le], regs, p, m);
              r.pkt == p && (if FieldBetween(p, base, offset, |lo|, Val(lo), Val(hi)) then r.Fell? else r.Broke?)
    {
      RangeLoadRun(base, offset, lo, hi, Val(lo), Val(hi), regs, p, m);
    }
  }

  lemma LookupGuard(base: Base, offset: nat, len: nat, elems: seq<SetElem>, interval: bool, p: Packet, m: AddrMap, b: bool)
    requires offset + len <= |Header(p, base)| ==>
               (b <==> InSet(elems, interval, Header(p, base)[offset..offset + len]))
    requires offset + len > |Header(p, base)| ==> !b
    ensures IsGuard([PayloadLoad(base, offset, len, 1), LookupSet(1, elems, interval)], p, m, b)
  {
    var look := LookupSet(1, elems, interval);
    if offset + len <= |Header(p, base)| {
      var h := Header(p, base)[offset..offset + len];
      forall regs: Regs | Reg(regs, 1) == h
        ensures Exec([look], regs, p, m) == if b then Fell(regs, p) else Broke(p)
      {
        ExecSingle(look, regs, p, m);
      }
    }
    LoadThenTest(base, offset, len, [look], b, p, m);
    assert [PayloadLoad(base, offset, len, 1)] + [look] == [PayloadLoad(base, offset, len, 1), look];
  }

  // ----- sets -----

  lemma {:induction false} InsertDistinctContents(s: seq<nat>, v: nat)
    ensures forall x :: x in InsertDistinct(s, v) <==> x in s || x == v
  {
    if s != [] && v > s[0] { InsertDistinctContents(s[1..], v); }
  }

  lemma {:induction false} DistinctContents(values: seq<nat>)
    ensures forall x :: x in Distinct(values) <==> x in values
  {
    if values != [] {
      DistinctContents(values[..|values| - 1]);
      InsertDistinctContents(Distinct(values[..|values| - 1]), values[|values| - 1]);
    }
  }

  lemma WidthBound(top: nat, width: nat)
    requires (top == MAX_ADDR && width == 4) || (top == MAX_PORT && width == 2)
    ensures top + 1 == Pow256(width)
  {
    assert Pow256(0) == 1;
    assert Pow256(1) == 256;
    assert Pow256(2) == 65536;
    assert Pow256(3) == 16777216;
  }

  lemma IntervalSetLookup(ks: seq<Intervals.Key>, width: nat, key: seq<byte>)
    requires |key| == width
    requires forall i :: 0 <= i < |ks| ==> ks[i].value < Pow256(width)
    ensures InSet(IntervalElems(ks, width), true, key) <==> Intervals.Hits(ks, Val(key))
  {
    var elems := IntervalElems(ks, width);
    forall i, k: seq<byte> | 0 <= i < |ks| && |k| == width
      ensures KeyLeq(elems[i].key, k) <==> ks[i].value <= Val(k)
    {
      BigRoundTrip(ks[i].value, width);
      PrecedesIsLess(k, elems[i].key);
    }
    forall i | 0 <= i < |ks| ensures Val(elems[i].key) == ks[i].value { BigRoundTrip(ks[i].value, width); }
    forall i ensures GreatestKey(elems, key, i) <==> Intervals.GreatestBelow(ks, Val(key), i) {
      if GreatestKey(elems, key, i) {
        forall j | 0 <= j < |ks| && ks[j].value <= Val(key) ensures ks[j].value <= ks[i].value {
          assert KeyLeq(elems[j].key, elems[i].key);
        }
      }
      if Intervals.GreatestBelow(ks, Val(key), i) {
        forall j | 0 <= j < |elems| && KeyLeq(elems[j].key, key) ensures KeyLeq(elems[j].key, elems[i].key) {
          assert ks[j].value <= ks[i].value;
        }
      }
    }
    if InSet(elems, true, key) {
      var i :| GreatestKey(elems, key, i) && !elems[i].intervalEnd;
      assert Intervals.GreatestBelow(ks, Val(key), i);
    }
    if Intervals.Hits(ks, Val(key)) {
      var i :| Intervals.GreatestBelow(ks, Val(key), i) && !ks[i].intervalEnd;
      assert GreatestKey(elems, key, i);
    }
  }

  lemma PlainSetLookup(values: seq<nat>, width: nat, key: seq<byte>)
    requires |key| == width
    requires forall i :: 0 <= i < |values| ==> values[i] < Pow256(width)
    ensures InSet(PlainElems(values, width), false, key) <==> Val(key) in values
  {
    var elems := PlainElems(values, width);
    if Val(key) in values {
      var i :| 0 <= i < |values| && values[i] == Val(key);
      ValRoundTrip(key);
      assert elems[i].key == key;
    }
    if InSet(elems, false, key) {
      var i :| 0 <= i < |elems| && elems[i].key == key;
      BigRoundTrip(values[i], width);
      assert values[i] == Val(key);
    }
  }

  /** A union written as an anonymous set contains exactly the configured values. */
  lemma SetDenotesUnion(ivs: seq<Intervals.Interval>, interval: bool, top: nat, width: nat, key: seq<byte>)
    requires (top == MAX_ADDR && width == 4) || (top == MAX_PORT && width == 2)
    requires Intervals.AllValid(ivs, top) && |key| == width
    requires !interval ==> forall i :: 0 <= i < |ivs| ==> ivs[i].low == ivs[i].high
    ensures var e := SetExpr(ivs, interval, top, width);
            InSet(e.elems, e.interval, key) <==> Intervals.Covers(ivs, Val(key))
  {
    WidthBound(top, width);
    ValRoundTrip(key);
    if interval {
      Intervals.MergedKeysDenoteConfiguredUnion(ivs, top, Val(key));
      IntervalSetLookup(Intervals.Keys(Intervals.Merged(ivs), top), width, key);
    } else {
      var lows := Map((iv: Intervals.Interval) => iv.low, ivs);
      DistinctContents(lows);
      forall i | 0 <= i < |Distinct(lows)| ensures Distinct(lows)[i] < Pow256(width) {
        assert Distinct(lows)[i] in lows;
        assert forall k :: 0 <= k < |ivs| ==> Intervals.Valid(ivs[k], top);
      }
      PlainSetLookup(Distinct(lows), width, key);
      if Intervals.Covers(ivs, Val(key)) {
        var i :| 0 <= i < |ivs| && Intervals.Inside(ivs[i], Val(key));
        assert lows[i] == Val(key);
      }
      if Val(key) in lows {
        var i :| 0 <= i < |lows| && lows[i] == Val(key);
        assert Intervals.Inside(ivs[i], Val(key));
      }
    }
  }

  lemma IPGuard(addrs: seq<AddrOrRange>, offset: nat, p: Packet, m: AddrMap)
    requires addrs != [] && forall i :: 0 <= i < |addrs| ==> ValidAddrs(addrs[i])
    ensures IPExprs(addrs, offset).Some?
    ensures IsGuard(IPExprs(addrs, offset).value, p, m, AddrIn(addrs, AddrField(p, offset)))
  {
    var x := AddrField(p, offset);
    WidthBound(MAX_ADDR, 4);
    if |addrs| == 1 {
      assert ValidAddrs(addrs[0]);
      assert AddrIn(addrs, x) <==> x.Some? && AddrMatches(addrs[0], x.value);
      if addrs[0].Addr? {
        BigRoundTrip(addrs[0].addr, 4);
        EqualityGuard(NetworkHeader, offset, Big(addrs[0].addr, 4), p, m);
      } else {
        BigRoundTrip(addrs[0].low, 4);
        BigRoundTrip(addrs[0].high, 4);
        RangeGuard(NetworkHeader, offset, Big(addrs[0].low, 4), Big(addrs[0].high, 4), p, m);
      }
    } else {
      var ivs := Map(AddrInterval, addrs);
      var interval := exists i :: 0 <= i < |addrs| && addrs[i].Range?;
      var e := SetExpr(ivs, interval, MAX_ADDR, 4);
      forall i | 0 <= i < |ivs| ensures Intervals.Valid(ivs[i], MAX_ADDR) && (addrs[i].Addr? ==> ivs[i].low == ivs[i].high) {
        assert ValidAddrs(addrs[i]);
      }
      if x.Some? {
        SetDenotesUnion(ivs, interval, MAX_ADDR, 4, p.net[offset..offset + 4]);
        assert forall i :: 0 <= i < |addrs| ==> (ValidAddrs(addrs[i]) ==> (AddrMatches(addrs[i], x.value) <==> Intervals.Inside(ivs[i], x.value)));
        assert Intervals.Covers(ivs, x.value) <==> AddrIn(addrs, x);
      }
      LookupGuard(NetworkHeader, offset, 4, e.elems, e.interval, p, m, AddrIn(addrs, x));
    }
  }

  lemma PortGuard(ports: seq<RulePorts>, offset: nat, p: Packet, m: AddrMap)
    requires ports != [] && forall i :: 0 <= i < |ports| ==> ValidPorts(ports[i])
    ensures IsGuard(PortExprs(ports, offset), p, m, PortIn(ports, PortField(p, offset)))
  {
    var x := PortField(p, offset);
    WidthBound(MAX_PORT, 2);
    if |ports| == 1 {
      assert ValidPorts(ports[0]);
      assert PortIn(ports, x) <==> x.Some? && PortMatches(ports[0], x.value);
      if ports[0].single != 0 {
        BigRoundTrip(ports[0].single, 2);
        EqualityGuard(TransportHeader, offset, Big(ports[0].single, 2), p, m);
      } else {
        BigRoundTrip(ports[0].min, 2);
        BigRoundTrip(ports[0].max, 2);
        RangeGuard(TransportHeader, offset, Big(ports[0].min, 2), Big(ports[0].max, 2), p, m);
      }
    } else {
      var ivs := Map(PortInterval, ports);
      var interval := exists i :: 0 <= i < |ports| && ports[i].single == 0;
      var e := SetExpr(ivs, interval, MAX_PORT, 2);
      forall i | 0 <= i < |ivs| ensures Intervals.Valid(ivs[i], MAX_PORT) && (ports[i].single != 0 ==> ivs[i].low == ivs[i].high) {
        assert ValidPorts(ports[i]);
      }
      if x.Some? {
        SetDenotesUnion(ivs, interval, MAX_PORT, 2, p.transport[offset..offset + 2]);
        assert forall i :: 0 <= i < |ports| ==> (PortMatches(ports[i], x.value) <==> Intervals.Inside(ivs[i], x.value));
        assert Intervals.Covers(ivs, x.value) <==> PortIn(ports, x);
      }
      LookupGuard(TransportHeader, offset, 2, e.elems, e.interval, p, m, PortIn(ports, x));
    }
  }

  lemma StateBitTable()
    ensures BitAnd(1, 8) == BitAnd(1, 6) == BitAnd(1, 14) == 0
    ensures BitAnd(2, 8) == 0 && BitAnd(2, 6) == 2 && BitAnd(2, 14) == 2
    ensures BitAnd(4, 8) == 0 && BitAnd(4, 6) == 4 && BitAnd(4, 14) == 4
    ensures BitAnd(8, 8) == 8 && BitAnd(8, 6) == 0 && BitAnd(8, 14) == 8
    ensures BitAnd(64, 8) == BitAnd(64, 6) == BitAnd(64, 14) == 0
  {
  }

  /** The masked state is non-zero exactly for the states the constant names. */
  lemma MaskedState(state: byte, c: CtState)
    requires KnownState(state)
    ensures BitAnd(StateBit(c), state) != 0 <==> StateMatches(state, c)
  {
    StateBitTable();
    match c
    case CtInvalid =>
    case CtEstablished =>
    case CtRelated =>
    case CtNew =>
    case CtUntracked =>
  }

  lemma MaskedBytes(s: byte, mask: byte)
    ensures MaskBytes([s, 0, 0, 0], [mask, 0, 0, 0], [0, 0, 0, 0]) == [BitAnd(s, mask), 0, 0, 0]
  {
    assert MaskBytes([], [], []) == [];
    assert MaskXor(0, 0, 0) == 0;
    assert MaskBytes([0], [0], [0]) == [0];
    var two: seq<byte> := [0, 0];
    assert two[1..] == [0];
    assert MaskBytes(two, two, two) == two;
    var three: seq<byte> := [0, 0, 0];
    assert three[1..] == two;
    assert MaskBytes(three, three, three) == three;
    var a: seq<byte>, b: seq<byte>, c: seq<byte> := [s, 0, 0, 0], [mask, 0, 0, 0], [0, 0, 0, 0];
    assert a[1..] == three && b[1..] == three && c[1..] == three;
  }

  /** Load, mask and test, whatever the registers held before. */
  lemma StateRun(state: byte, p: Packet, m: AddrMap, regs: Regs)
    ensures var r := Exec(MatchStateExprs(state), regs, p, m);
            r.pkt == p && (if BitAnd(StateBit(p.ct), state) != 0 then r.Fell? else r.Broke?)
  {
    MaskedBytes(StateBit(p.ct), state);
    var load, mask, test := CtLoad(1), Bitwise(1, 1, [state, 0, 0, 0], [0, 0, 0, 0]), Cmp(CmpNeq, 1, [0, 0, 0, 0]);
    var masked: seq<byte> := [BitAnd(StateBit(p.ct), state), 0, 0, 0];
    assert masked == [0, 0, 0, 0] <==> masked[0] == 0;
    assert MatchStateExprs(state) == [load] + ([mask] + [test]);
    var r1 := regs[1 := [StateBit(p.ct), 0, 0, 0]];
    ExecAppend([load], [mask] + [test], regs, p, m);
    ExecSingle(load, regs, p, m);
    ExecAppend([mask], [test], r1, p, m);
    ExecSingle(mask, r1, p, m);
    ExecSingle(test, r1[1 := masked], p, m);
  }

  lemma StateGuard(state: byte, p: Packet, m: AddrMap)
    requires KnownState(state)
    ensures IsGuard(MatchStateExprs(state), p, m, StateMatches(state, p.ct))
  {
    MaskedState(state, p.ct);
    forall regs: Regs
      ensures var r := Exec(MatchStateExprs(state), regs, p, m);
              r.pkt == p && (if StateMatches(state, p.ct) then r.Fell? else r.Broke?)
    {
      StateRun(state, p, m, regs);
    }
  }

  lemma ProtoGuard(cfg: RuleConfig, p: Packet, m: AddrMap)
    ensures IsGuard(ProtoPart(cfg), p, m, !cfg.proto.InvalidProto? ==> p.l4proto == ProtoNumber(cfg.proto))
  {
    if !cfg.proto.InvalidProto? {
      var load, test := MetaLoad(1), Cmp(CmpEq, 1, [ProtoNumber(cfg.proto)]);
      assert ProtoPart(cfg) == [load] + [test];
      assert [p.l4proto] == [ProtoNumber(cfg.proto)] <==> [p.l4proto][0] == ProtoNumber(cfg.proto);
      forall regs: Regs
        ensures var r := Exec(ProtoPart(cfg), regs, p, m);
                r.pkt == p && (if p.l4proto == ProtoNumber(cfg.proto) then r.Fell? else r.Broke?)
      {
        ExecAppend([load], [test], regs, p, m);
        ExecSingle(load, regs, p, m);
        ExecSingle(test, regs[1 := [p.l4proto]], p, m);
      }
    }
  }

  lemma LogGuard(state: byte, cfg: RuleConfig, p: Packet, m: AddrMap)
    ensures IsGuard(LogPart(state, cfg), p, m, true)
  {
    forall regs: Regs ensures Exec(LogPart(state, cfg), regs, p, m) == Fell(regs, p) {
      var tail := if state == STATE_NEW && cfg.logPrefix != "" then [Log(cfg.logPrefix)] else [];
      ExecAppend([Counter], tail, regs, p, m);
      ExecSingle(Counter, regs, p, m);
      if tail != [] { ExecSingle(tail[0], regs, p, m); }
    }
  }

  ghost predicate AddrsMatch(inbound: bool, addr: seq<byte>, cfg: RuleConfig, p: Packet)
  {
    var ownOffset := if inbound then DST_ADDR_OFFSET else SRC_ADDR_OFFSET;
    var peerOffset := if inbound then SRC_ADDR_OFFSET else DST_ADDR_OFFSET;
    && (addr != [] ==> AddrField(p, ownOffset) == Some(Val(addr)))
    && (Ips(cfg) != [] ==> AddrIn(Ips(cfg), AddrField(p, peerOffset)))
  }

  ghost predicate ProtoMatches(cfg: RuleConfig, p: Packet)
  {
    !cfg.proto.InvalidProto? ==> p.l4proto == ProtoNumber(cfg.proto)
  }

  ghost predicate PortsMatch(inverse: bool, cfg: RuleConfig, p: Packet)
  {
    var srcOffset := if inverse then DST_PORT_OFFSET else SRC_PORT_OFFSET;
    var dstOffset := if inverse then SRC_PORT_OFFSET else DST_PORT_OFFSET;
    && (cfg.srcPorts != [] ==> PortIn(cfg.srcPorts, PortField(p, srcOffset)))
    && (cfg.dstPorts != [] ==> PortIn(cfg.dstPorts, PortField(p, dstOffset)))
  }

  lemma AddrPartGuard(inbound: bool, addr: seq<byte>, cfg: RuleConfig, p: Packet, m: AddrMap)
    requires ValidAddrBytes(addr) && ValidParts(cfg)
    ensures AddrPart(inbound, addr, cfg).Some?
    ensures IsGuard(AddrPart(inbound, addr, cfg).value, p, m, AddrsMatch(inbound, addr, cfg, p))
  {
    var ownOffset := if inbound then DST_ADDR_OFFSET else SRC_ADDR_OFFSET;
    var peerOffset := if inbound then SRC_ADDR_OFFSET else DST_ADDR_OFFSET;
    var own := if addr == [] then [] else MatchAddrExprs(addr, ownOffset);
    var b1 := addr != [] ==> AddrField(p, ownOffset) == Some(Val(addr));
    assert IsGuard(own, p, m, b1) by {
      if addr != [] { EqualityGuard(NetworkHeader, ownOffset, addr, p, m); }
    }
    if Ips(cfg) != [] {
      IPGuard(Ips(cfg), peerOffset, p, m);
      var b2 := AddrIn(Ips(cfg), AddrField(p, peerOffset));
      GuardAppend(own, b1, IPExprs(Ips(cfg), peerOffset).value, b2, p, m);
      GuardAppend(IPExprs(Ips(cfg), peerOffset).value, b2, own, b1, p, m);
    }
  }

  lemma PortPartGuard(inverse: bool, cfg: RuleConfig, p: Packet, m: AddrMap)
    requires ValidParts(cfg)
    ensures IsGuard(PortPart(inverse, cfg), p, m, PortsMatch(inverse, cfg, p))
  {
    var so := if inverse then DST_PORT_OFFSET else SRC_PORT_OFFSET;
    var do := if inverse then SRC_PORT_OFFSET else DST_PORT_OFFSET;
    var src := if cfg.srcPorts == [] then [] else PortExprs(cfg.srcPorts, so);
    var dst := if cfg.dstPorts == [] then [] else PortExprs(cfg.dstPorts, do);
    var b1 := cfg.srcPorts != [] ==> PortIn(cfg.srcPorts, PortField(p, so));
    var b2 := cfg.dstPorts != [] ==> PortIn(cfg.dstPorts, PortField(p, do));
    assert IsGuard(src, p, m, b1) by {
      if cfg.srcPorts != [] { PortGuard(cfg.srcPorts, so, p, m); }
    }
    assert IsGuard(dst, p, m, b2) by {
      if cfg.dstPorts != [] { PortGuard(cfg.dstPorts, do, p, m); }
    }
    GuardAppend(src, b1, dst, b2, p, m);
    GuardAppend(dst, b2, src, b1, p, m);
  }

  /** Compiler correctness: on every packet, the generated expressions reach the
      verdict exactly when the declarative rule and the connection state match,
      and leave the packet alone. */
  lemma CompiledRuleMeansConfig(inbound: bool, inverse: bool, state: byte, addr: seq<byte>, cfg: RuleConfig,
                                tag: string, p: Packet, m: AddrMap)
    requires ValidAddrBytes(addr) && ValidParts(cfg) && PlainVerdict(cfg.verdict) && KnownState(state)
    ensures CreateNFTRule(inbound, inverse, state, addr, cfg, 0, tag).Some?
    ensures var r := CreateNFTRule(inbound, inverse, state, addr, cfg, 0, tag).value;
            RunRule(r, p, m) ==
            if Matches(inbound, inverse, addr, cfg, p) && StateMatches(state, p.ct)
            then Decided(if cfg.verdict.drop then VDrop else VReturn, "", p) else Broke(p)
  {
    AddrPartGuard(inbound, addr, cfg, p, m);
    ProtoGuard(cfg, p, m);
    PortPartGuard(inverse, cfg, p, m);
    StateGuard(state, p, m);
    LogGuard(state, cfg, p, m);
    FivePartRule(AddrPart(inbound, addr, cfg).value, AddrsMatch(inbound, addr, cfg, p),
                 ProtoPart(cfg), ProtoMatches(cfg, p), PortPart(inverse, cfg), PortsMatch(inverse, cfg, p),
                 MatchStateExprs(state), StateMatches(state, p.ct), LogPart(state, cfg),
                 VerdictExpr(cfg, 0).kind, tag, p, m);
  }

  lemma FivePartRule(a: seq<Expr>, ba: bool, pr: seq<Expr>, bp: bool, po: seq<Expr>, bo: bool,
                     st: seq<Expr>, bs: bool, lg: seq<Expr>, kind: VerdictKind, tag: string, p: Packet, m: AddrMap)
    requires IsGuard(a, p, m, ba) && IsGuard(pr, p, m, bp) && IsGuard(po, p, m, bo)
    requires IsGuard(st, p, m, bs) && IsGuard(lg, p, m, true)
    ensures RunRule(Rule(a + pr + po + st + lg + [Verdict(kind, "")], tag), p, m)
            == if ba && bp && bo && bs then Decided(kind, "", p) else Broke(p)
  {
    GuardAppend(a, ba, pr, bp, p, m);
    GuardAppend(a + pr, ba && bp, po, bo, p, m);
    GuardAppend(a + pr + po, ba && bp && bo, st, bs, p, m);
    GuardAppend(a + pr + po + st, ba && bp && bo && bs, lg, true, p, m);
    GuardThen(a + pr + po + st + lg, ba && bp && bo && bs && true, kind, "", p, m);
  }

  // ----- the rules of one rule description -----

  /** ruleDetails: `chain`/`contID` hold the rule for new traffic, `estChain` (when
      set) and `estContID` the rule for its replies. */
  datatype RuleDetails = RuleDetails(inbound: bool, addr: seq<byte>, cfg: RuleConfig, chain: string,
                                     estChain: Option<string>, contID: string, estContID: string)

  datatype Placed = Placed(chain: string, rule: Rule)

  function ReplyChain(rd: RuleDetails): string
  {
    if rd.estChain.None? then rd.chain else rd.estChain.value
  }

  function ReplyTag(rd: RuleDetails): string
  {
    if rd.estChain.None? then rd.contID else rd.estContID
  }

  function ForwardRule(rd: RuleDetails, state: byte): Option<Rule>
  {
    CreateNFTRule(rd.inbound, false, state, rd.addr, rd.cfg, 0, rd.contID)
  }

  function ReplyRule(rd: RuleDetails): Option<Rule>
  {
    CreateNFTRule(!rd.inbound, true, STATE_EST, rd.addr, rd.cfg, 0, ReplyTag(rd))
  }

  /** createNFTRules for the verdicts validation admits. */
  function CreateNFTRules(rd: RuleDetails): Option<seq<Placed>>
    requires PlainVerdict(rd.cfg.verdict)
  {
    if rd.cfg.verdict.drop then
      var new_ := ForwardRule(rd, STATE_NEW);
      if new_.None? then None else Some([Placed(rd.chain, new_.value)])
    else if rd.cfg.logPrefix == "" then
      var newEst, reply := ForwardRule(rd, STATE_NEW_EST), ReplyRule(rd);
      if newEst.None? || reply.None? then None
      else Some([Placed(rd.chain, newEst.value), Placed(ReplyChain(rd), reply.value)])
    else
      var new_, est, reply := ForwardRule(rd, STATE_NEW), ForwardRule(rd, STATE_EST), ReplyRule(rd);
      if new_.None? || est.None? || reply.None? then None
      else Some([Placed(rd.chain, new_.value), Placed(rd.chain, est.value), Placed(ReplyChain(rd), reply.value)])
  }

  predicate ValidDetails(rd: RuleDetails)
  {
    ValidAddrBytes(rd.addr) && ValidParts(rd.cfg) && PlainVerdict(rd.cfg.verdict)
  }

  lemma AlwaysCompiles(inbound: bool, inverse: bool, state: byte, addr: seq<byte>, cfg: RuleConfig, tag: string)
    requires ValidParts(cfg)
    ensures CreateNFTRule(inbound, inverse, state, addr, cfg, 0, tag).Some?
  {
    if Ips(cfg) != [] {
      forall i | 0 <= i < |Ips(cfg)| ensures !Ips(cfg)[i].Neither? { assert ValidAddrs(Ips(cfg)[i]); }
    }
  }

  /** Valid descriptions compile, and every rule is in one of the two chains
      under the tag that goes with the chain. */
  lemma ValidDetailsCompile(rd: RuleDetails)
    requires ValidDetails(rd)
    ensures CreateNFTRules(rd).Some?
    ensures forall q :: q in CreateNFTRules(rd).value ==>
              || (q.chain == rd.chain && q.rule.tag == rd.contID)
              || (q.chain == ReplyChain(rd) && q.rule.tag == ReplyTag(rd))
  {
    AlwaysCompiles(rd.inbound, false, STATE_NEW, rd.addr, rd.cfg, rd.contID);
    AlwaysCompiles(rd.inbound, false, STATE_EST, rd.addr, rd.cfg, rd.contID);
    AlwaysCompiles(rd.inbound, false, STATE_NEW_EST, rd.addr, rd.cfg, rd.contID);
    AlwaysCompiles(!rd.inbound, true, STATE_EST, rd.addr, rd.cfg, ReplyTag(rd));
  }

  // ----- replies mirror the forward direction -----

  /** Network header of at least the five words of RFC 791, and a transport header
      that is absent or holds both ports. */
  predicate WellFormed(p: Packet)
  {
    |p.net| >= 20 && (p.transport == [] || |p.transport| >= 4)
  }

  /** The packet with addresses and ports exchanged. */
  function Mirror(p: Packet): Packet
    requires WellFormed(p)
  {
    p.(net := p.net[..12] + p.net[16..20] + p.net[12..16] + p.net[20..],
       transport := if p.transport == [] then [] else p.transport[2..4] + p.transport[0..2] + p.transport[4..])
  }

  lemma MirrorFields(p: Packet)
    requires WellFormed(p)
    ensures WellFormed(Mirror(p))
    ensures AddrField(Mirror(p), SRC_ADDR_OFFSET) == AddrField(p, DST_ADDR_OFFSET)
    ensures AddrField(Mirror(p), DST_ADDR_OFFSET) == AddrField(p, SRC_ADDR_OFFSET)
    ensures PortField(Mirror(p), SRC_PORT_OFFSET) == PortField(p, DST_PORT_OFFSET)
    ensures PortField(Mirror(p), DST_PORT_OFFSET) == PortField(p, SRC_PORT_OFFSET)
  {
    var q := Mirror(p);
    assert q.net[12..16] == p.net[16..20];
    assert q.net[16..20] == p.net[12..16];
    if p.transport != [] {
      assert q.transport[0..2] == p.transport[2..4];
      assert q.transport[2..4] == p.transport[0..2];
    }
  }

  /** The established rule matches a packet exactly when the forward rule, apart
      from connection state, matches the mirrored packet; and it never lets a
      packet of a new connection through. */
  lemma ReplyMirrorsForward(rd: RuleDetails, p: Packet, m: AddrMap)
    requires ValidDetails(rd) && !rd.cfg.verdict.drop && WellFormed(p)
    ensures ReplyRule(rd).Some? && ForwardRule(rd, STATE_NEW_EST).Some?
    ensures RunRule(ReplyRule(rd).value, p, m) ==
            if Matches(rd.inbound, false, rd.addr, rd.cfg, Mirror(p)) && (p.ct.CtEstablished? || p.ct.CtRelated?)
            then Decided(VReturn, "", p) else Broke(p)
    ensures p.ct.CtNew? ==> RunRule(ReplyRule(rd).value, p, m) == Broke(p)
    ensures p.ct.CtEstablished? || p.ct.CtRelated? ==>
              (RunRule(ReplyRule(rd).value, p, m).Decided? <==>
               RunRule(ForwardRule(rd, STATE_NEW_EST).value, Mirror(p), m).Decided?)
  {
    CompiledRuleMeansConfig(!rd.inbound, true, STATE_EST, rd.addr, rd.cfg, ReplyTag(rd), p, m);
    CompiledRuleMeansConfig(rd.inbound, false, STATE_NEW_EST, rd.addr, rd.cfg, rd.contID, Mirror(p), m);
    MirrorFields(p);
    MirroredMatch(rd.inbound, rd.addr, rd.cfg, p);
  }

  lemma MirroredMatch(inbound: bool, addr: seq<byte>, cfg: RuleConfig, p: Packet)
    requires WellFormed(p)
    ensures Matches(!inbound, true, addr, cfg, p) <==> Matches(inbound, false, addr, cfg, Mirror(p))
  {
    MirrorFields(p);
  }

  // ----- shape of generated rules -----

  lemma PlainParts(inbound: bool, inverse: bool, state: byte, addr: seq<byte>, cfg: RuleConfig)
    ensures AddrPart(inbound, addr, cfg).Some? ==>
              forall i :: 0 <= i < |AddrPart(inbound, addr, cfg).value| ==> PlainStep(AddrPart(inbound, addr, cfg).value[i])
    ensures forall i :: 0 <= i < |ProtoPart(cfg)| ==> PlainStep(ProtoPart(cfg)[i])
    ensures forall i :: 0 <= i < |PortPart(inverse, cfg)| ==> PlainStep(PortPart(inverse, cfg)[i])
    ensures forall i :: 0 <= i < |MatchStateExprs(state)| ==> PlainStep(MatchStateExprs(state)[i])
    ensures forall i :: 0 <= i < |LogPart(state, cfg)| ==> PlainStep(LogPart(state, cfg)[i])
  {
  }

  /** Every generated rule consists of tests followed by drop or return: no jump,
      goto, accept, queue, or write. */
  lemma GeneratedRuleIsPlain(inbound: bool, inverse: bool, state: byte, addr: seq<byte>, cfg: RuleConfig, tag: string)
    requires PlainVerdict(cfg.verdict)
    ensures var r := CreateNFTRule(inbound, inverse, state, addr, cfg, 0, tag);
            r.Some? ==> PlainRule(r.value) && r.value.tag == tag
  {
    PlainParts(inbound, inverse, state, addr, cfg);
  }

  lemma GeneratedRulesArePlain(rd: RuleDetails)
    requires PlainVerdict(rd.cfg.verdict) && CreateNFTRules(rd).Some?
    ensures forall q :: q in CreateNFTRules(rd).value ==> PlainRule(q.rule)
  {
    GeneratedRuleIsPlain(rd.inbound, false, STATE_NEW, rd.addr, rd.cfg, rd.contID);
    GeneratedRuleIsPlain(rd.inbound, false, STATE_EST, rd.addr, rd.cfg, rd.contID);
    GeneratedRuleIsPlain(rd.inbound, false, STATE_NEW_EST, rd.addr, rd.cfg, rd.contID);
    GeneratedRuleIsPlain(!rd.inbound, true, STATE_EST, rd.addr, rd.cfg, ReplyTag(rd));
  }

  // ----- the drop of published ports seen from localhost -----

  const LOCALHOST := 0x7F00_0001

  const NO_VERDICT := PolicyVerdict("", 0, 0, 0, false)

  const EMPTY_RULE := RuleConfig("", "", None, "", None, InvalidProto, [], [], NO_VERDICT,
                                 "", "", "", "", 0, false, false, false, false)

  /** The rule the port mapper puts in the main chain for one host port. */
  function LocalhostDrop(mainChain: string, proto: Protocol, hostPort: nat, id: string): RuleDetails
  {
    RuleDetails(true, [], EMPTY_RULE.(ips := Some([Addr(LOCALHOST)]), proto := proto,
                                      dstPorts := [RulePorts(hostPort, 0, 0)], verdict := NO_VERDICT.(drop := true)),
                mainChain, None, id, "")
  }

  /** It compiles to a single rule that the base repair recognises as safe and
      keeps. Host port 0 is the one case in which the single-port form is not
      taken; the rule is safe there as well. */
  lemma LocalhostDropIsSafe(mainChain: string, proto: Protocol, hostPort: nat, id: string)
    requires hostPort <= MAX_PORT && id != ""
    ensures var rules := CreateNFTRules(LocalhostDrop(mainChain, proto, hostPort, id));
            rules.Some? && |rules.value| == 1 && rules.value[0].chain == mainChain
            && SafeOwnedDrop(rules.value[0].rule) && rules.value[0].rule.tag == id
  {
    var rd := LocalhostDrop(mainChain, proto, hostPort, id);
    assert Ips(rd.cfg) == [Addr(LOCALHOST)];
    var r := ForwardRule(rd, STATE_NEW).value;
    assert AddrPart(true, [], rd.cfg).value == MatchAddrExprs(Big(LOCALHOST, 4), SRC_ADDR_OFFSET) + [];
    assert |PortPart(false, rd.cfg)| <= 3;
    assert forall i :: 0 <= i < |PortPart(false, rd.cfg)| ==> SafeStep(PortPart(false, rd.cfg)[i]);
    assert r.exprs[|r.exprs| - 1] == Verdict(VDrop, "");
  }
}
