/** The kernel's ruleset and a netlink connection: commands are queued and take
    effect together at Flush, or not at all. Every call may fail. */
module Kernel {
  import opened Nft
  import opened Chains
  import opened Wrappers
  import opened Policy

  /** A committed rule carries the handle by which it can be deleted. */
  datatype HRule = HRule(handle: nat, rule: Rule)

  datatype KState = KState(chains: map<string, seq<HRule>>, irregular: set<string>, addrs: Option<AddrMap>, next: nat)

  function Plain(hs: seq<HRule>): (r: seq<Rule>)
    ensures |r| == |hs|
  {
    seq(|hs|, i requires 0 <= i < |hs| => hs[i].rule)
  }

  /** The state without handles. */
  function View(s: KState): Fw
  {
    Fw(map c | c in s.chains :: Plain(s.chains[c]), s.irregular, s.addrs)
  }

  ghost predicate DistinctHandles(hs: seq<HRule>, next: nat)
  {
    && (forall i :: 0 <= i < |hs| ==> hs[i].handle < next)
    && forall i, j :: 0 <= i < j < |hs| ==> hs[i].handle != hs[j].handle
  }

  ghost predicate Handled(s: KState)
  {
    forall c :: c in s.chains ==> DistinctHandles(s.chains[c], s.next)
  }

  // ----- commands -----

  datatype Cmd =
    | AddChain(name: string, regular: bool)
    | DelChain(name: string)
    | AddSet
    | AddElems(adds: AddrMap)
    | DelElems(keys: set<Key>)
    | AddRule(chain: string, rule: Rule)
    | InsertRule(chain: string, rule: Rule)
    | DelRule(chain: string, handle: nat)

  /** Jump and goto targets must exist, and so must the map a rule looks up. */
  predicate Resolves(fw: Fw, r: Rule)
  {
    forall e :: e in r.exprs ==>
      && (e.Verdict? && (e.kind == VJump || e.kind == VGoto) ==> e.chain in fw.chains)
      && (e.LookupVerdict? ==> fw.addrs.Some?)
  }

  predicate Targets(r: Rule, name: string)
  {
    exists e :: e in r.exprs && e.Verdict? && e.chain == name
  }

  predicate Referenced(fw: Fw, name: string)
  {
    || (exists c :: c in fw.chains && exists i :: 0 <= i < |fw.chains[c]| && Targets(fw.chains[c][i], name))
    || (exists k :: k in Mapping(fw) && Mapping(fw)[k].chain == name)
  }

  function Position(hs: seq<HRule>, handle: nat): Option<nat>
  {
    if hs == [] then None
    else if hs[0].handle == handle then Some(0)
    else
      var p := Position(hs[1..], handle);
      if p.None? then None else Some(p.value + 1)
  }

  function Remove(hs: seq<HRule>, handle: nat): seq<HRule>
  {
    if hs == [] then []
    else if hs[0].handle == handle then hs[1..]
    else [hs[0]] + Remove(hs[1..], handle)
  }

  function Apply(s: KState, cmd: Cmd): Option<KState>
  {
    match cmd
    case AddChain(name, regular) =>
      if name in s.chains then (if (name !in s.irregular) == regular then Some(s) else None)
      else Some(s.(chains := s.chains[name := []], irregular := if regular then s.irregular else s.irregular + {name}))
    case DelChain(name) =>
      if name in s.chains && s.chains[name] == [] && !Referenced(View(s), name)
      then Some(s.(chains := s.chains - {name}, irregular := s.irregular - {name})) else None
    case AddSet =>
      if s.addrs.None? then Some(s.(addrs := Some(map[]))) else Some(s)
    case AddElems(adds) =>
      if s.addrs.Some? && (forall k :: k in adds ==>
           adds[k].chain in s.chains && (k in s.addrs.value ==> s.addrs.value[k] == adds[k]))
      then Some(s.(addrs := Some(s.addrs.value + adds))) else None
    case DelElems(keys) =>
      if s.addrs.Some? && keys <= s.addrs.value.Keys
      then Some(s.(addrs := Some(s.addrs.value - keys))) else None
    case AddRule(c, r) =>
      if c in s.chains && Resolves(View(s), r)
      then Some(s.(chains := s.chains[c := s.chains[c] + [HRule(s.next, r)]], next := s.next + 1)) else None
    case InsertRule(c, r) =>
      if c in s.chains && Resolves(View(s), r)
      then Some(s.(chains := s.chains[c := [HRule(s.next, r)] + s.chains[c]], next := s.next + 1)) else None
    case DelRule(c, h) =>
      if c in s.chains && Position(s.chains[c], h).Some?
      then Some(s.(chains := s.chains[c := Remove(s.chains[c], h)])) else None
  }

  function Then(o: Option<KState>, cmd: Cmd): Option<KState>
  {
    if o.None? then None else Apply(o.value, cmd)
  }

  /** The queued commands in order; one failing command fails the batch. */
  function RunBatch(s: KState, cmds: seq<Cmd>): Option<KState>
  {
    if cmds == [] then Some(s) else Then(RunBatch(s, cmds[..|cmds| - 1]), cmds[|cmds| - 1])
  }

  lemma RunSnoc(s: KState, cmds: seq<Cmd>, cmd: Cmd)
    ensures RunBatch(s, cmds + [cmd]) == Then(RunBatch(s, cmds), cmd)
  {
    assert (cmds + [cmd])[..|cmds|] == cmds;
  }

  lemma {:induction false} RemoveKeepsDistinct(hs: seq<HRule>, handle: nat, next: nat)
    requires DistinctHandles(hs, next)
    ensures DistinctHandles(Remove(hs, handle), next)
    ensures forall h :: h in Remove(hs, handle) ==> h in hs
  {
    if hs != [] && hs[0].handle != handle {
      RemoveKeepsDistinct(hs[1..], handle, next);
      var r := Remove(hs[1..], handle);
      forall j | 0 <= j < |r| ensures r[j].handle != hs[0].handle { assert r[j] in hs[1..]; }
    }
  }

  lemma ApplyKeepsHandles(s: KState, cmd: Cmd)
    requires Handled(s) && Apply(s, cmd).Some?
    ensures Handled(Apply(s, cmd).value)
  {
    if cmd.DelRule? { RemoveKeepsDistinct(s.chains[cmd.chain], cmd.handle, s.next); }
  }

  lemma {:induction false} BatchKeepsHandles(s: KState, cmds: seq<Cmd>)
    requires Handled(s) && RunBatch(s, cmds).Some?
    ensures Handled(RunBatch(s, cmds).value)
  {
    if cmds != [] {
      BatchKeepsHandles(s, cmds[..|cmds| - 1]);
      ApplyKeepsHandles(RunBatch(s, cmds[..|cmds| - 1]).value, cmds[|cmds| - 1]);
    }
  }

  // ----- deleting by handle -----

  /** What a deletion loop leaves: the rules that are not selected. */
  function Residue(hs: seq<HRule>, sel: Select): seq<HRule>
  {
    if hs == [] then []
    else Residue(hs[..|hs| - 1], sel) + (if Selects(sel, hs[|hs| - 1].rule) then [] else [hs[|hs| - 1]])
  }

  lemma {:induction false} ResidueView(hs: seq<HRule>, sel: Select)
    ensures Plain(Residue(hs, sel)) == Kept(Plain(hs), sel)
    ensures forall h :: h in Residue(hs, sel) ==> h in hs
  {
    if hs != [] {
      var n := |hs| - 1;
      ResidueView(hs[..n], sel);
      assert Plain(hs) == Plain(hs[..n]) + [hs[n].rule];
      KeptAppend(Plain(hs[..n]), [hs[n].rule], sel);
      assert Kept([hs[n].rule], sel) == if Selects(sel, hs[n].rule) then [] else [hs[n].rule];
      assert Plain(Residue(hs, sel))
             == Plain(Residue(hs[..n], sel)) + (if Selects(sel, hs[n].rule) then [] else [hs[n].rule]);
    }
  }

  lemma {:induction false} RemoveMiddle(a: seq<HRule>, h: HRule, b: seq<HRule>)
    requires forall x :: x in a ==> x.handle != h.handle
    ensures Position(a + [h] + b, h.handle).Some?
    ensures Remove(a + [h] + b, h.handle) == a + b
  {
    if a == [] {
      assert a + [h] + b == [h] + b && a + b == b;
    } else {
      assert a[0] in a;
      RemoveMiddle(a[1..], h, b);
      assert (a + [h] + b)[1..] == a[1..] + [h] + b;
      assert [a[0]] + (a[1..] + b) == a + b;
    }
  }

  // ----- the objects -----

  /** A script of failures: each call consumes one entry; an empty script means
      that nothing fails any more. */
  class Faults {
    var script: seq<bool>

    constructor (script: seq<bool>)
      ensures this.script == script
    {
      this.script := script;
    }

    method Next() returns (fault: bool)
      modifies this
      ensures old(script) == [] ==> script == [] && !fault
      ensures old(script) != [] ==> script == old(script)[1..] && fault == old(script)[0]
    {
      if script == [] {
        fault := false;
      } else {
        fault := script[0];
        script := script[1..];
      }
    }
  }

  /** The committed ruleset; `log` records the view of every committed state. */
  class Ruleset {
    var state: KState
    ghost var log: seq<Fw>

    ghost predicate Valid()
      reads this
    {
      Handled(state) && log != [] && log[|log| - 1] == View(state)
    }

    constructor (initial: KState)
      requires Handled(initial)
      ensures Valid() && state == initial && log == [View(initial)]
    {
      state := initial;
      log := [View(initial)];
    }
  }

  datatype Errno = ENOENT | EIO

  /** The chains of the table; the irregular ones fail validateRegularOwnedChain. */
  datatype Listing = Listing(names: set<string>, irregular: set<string>)

  class Conn {
    const kernel: Ruleset
    const faults: Faults
    var batch: seq<Cmd>

    constructor (kernel: Ruleset, faults: Faults)
      ensures this.kernel == kernel && this.faults == faults && batch == []
    {
      this.kernel := kernel;
      this.faults := faults;
      batch := [];
    }

    /** The state the queued commands lead to, if they all apply. */
    ghost function Pending(): Option<KState>
      reads this, kernel
    {
      RunBatch(kernel.state, batch)
    }

    method Queue(cmd: Cmd)
      modifies this
      ensures Pending() == Then(old(Pending()), cmd)
    {
      RunSnoc(kernel.state, batch, cmd);
      batch := batch + [cmd];
    }

    method ListChains() returns (r: Option<Listing>)
      modifies faults
      ensures r.Some? ==> r.value == Listing(kernel.state.chains.Keys, kernel.state.irregular)
      ensures old(faults.script) == [] ==> faults.script == [] && r.Some?
    {
      var fault := faults.Next();
      r := if fault then None else Some(Listing(kernel.state.chains.Keys, kernel.state.irregular));
    }

    method GetRules(chain: string) returns (r: Result<seq<HRule>, Errno>)
      modifies faults
      ensures r.Ok? ==> chain in kernel.state.chains && r.value == kernel.state.chains[chain]
      ensures r == Err(ENOENT) ==> chain !in kernel.state.chains
      ensures old(faults.script) == [] ==> faults.script == [] && (r.Ok? <==> chain in kernel.state.chains)
    {
      var fault := faults.Next();
      if fault { return Err(EIO); }
      r := if chain in kernel.state.chains then Ok(kernel.state.chains[chain]) else Err(ENOENT);
    }

    method GetSetElements() returns (r: Result<AddrMap, Errno>)
      modifies faults
      ensures r.Ok? ==> kernel.state.addrs == Some(r.value)
      ensures r == Err(ENOENT) ==> kernel.state.addrs == None
      ensures old(faults.script) == [] ==> faults.script == [] && (r.Ok? <==> kernel.state.addrs.Some?)
      ensures old(faults.script) == [] && r.Err? ==> r == Err(ENOENT)
    {
      var fault := faults.Next();
      if fault { return Err(EIO); }
      r := if kernel.state.addrs.Some? then Ok(kernel.state.addrs.value) else Err(ENOENT);
    }

    /** Commit the batch atomically. A failure leaves the ruleset as it was. */
    method Flush() returns (ok: bool)
      requires kernel.Valid()
      modifies this, kernel, faults
      ensures kernel.Valid() && batch == []
      ensures ok ==> old(Pending()) == Some(kernel.state) && kernel.log == old(kernel.log) + [View(kernel.state)]
      ensures !ok ==> kernel.state == old(kernel.state) && kernel.log == old(kernel.log)
      ensures old(faults.script) == [] ==> faults.script == [] && (ok <==> old(Pending()).Some?)
    {
      var fault := faults.Next();
      var result := RunBatch(kernel.state, batch);
      batch := [];
      if fault || result.None? { return false; }
      BatchKeepsHandles(kernel.state, old(batch));
      kernel.state := result.value;
      kernel.log := kernel.log + [View(kernel.state)];
      return true;
    }
  }
}
