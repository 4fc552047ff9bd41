/** Runs: any interleaving of the committed batches of any containers' operations
    and of base repairs. A failed flush, database or Docker call commits nothing,
    so a run with failures is a shorter run. */
module Runs {
  import opened Nft
  import opened Names
  import opened Chains
  import opened Compiler
  import opened Wrappers
  import opened Policy
  import opened Invariants
  import opened Base

  datatype Step =
    | Floor(id: string, quarantineFirst: bool)
    | Remap(id: string, keys: set<Key>)
    | Replace(id: string, rds: seq<RuleDetails>)
    | Remove(id: string)
    | Repair

  /** What the kernel demands of a batch, and its generator of the descriptions. */
  ghost predicate Enabled(fw: Fw, s: Step)
  {
    match s
    case Floor(id, _) => ValidID(id)
    case Remap(id, _) => IsContainerChain(fw, id)
    case Replace(id, rds) => IsContainerChain(fw, id) && AllWellPlaced(id, rds) && ChainsExist(fw, Compiled(rds))
    case Remove(id) => ValidID(id)
    case Repair => true
  }

  function Effect(fw: Fw, s: Step): Fw
  {
    match s
    case Floor(id, quarantineFirst) => FloorInstalled(fw, id, quarantineFirst)
    case Remap(id, keys) => Remapped(fw, id, keys)
    case Replace(id, rds) => PolicyReplaced(fw, id, Compiled(rds))
    case Remove(id) => Deleted(fw, id)
    case Repair => BaseRepaired(fw)
  }

  ghost predicate IsRun(states: seq<Fw>, steps: seq<Step>)
  {
    && |states| == |steps| + 1
    && forall i :: 0 <= i < |steps| ==> Enabled(states[i], steps[i]) && states[i + 1] == Effect(states[i], steps[i])
  }

  /** The log of committed states grew by these steps, one after the other. */
  ghost predicate Ran(before: seq<Fw>, log: seq<Fw>, steps: seq<Step>)
  {
    && before != [] && before <= log && |log| == |before| + |steps|
    && forall i {:trigger StepRan(before, log, steps, i)} :: 0 <= i < |steps| ==> StepRan(before, log, steps, i)
  }

  ghost predicate StepRan(before: seq<Fw>, log: seq<Fw>, steps: seq<Step>, i: nat)
    requires before != [] && |log| == |before| + |steps| && i < |steps|
  {
    Enabled(log[|before| - 1 + i], steps[i]) && log[|before| + i] == Effect(log[|before| - 1 + i], steps[i])
  }

  lemma RanOn(a: seq<Fw>, b: seq<Fw>, c: seq<Fw>, first: seq<Step>, second: seq<Step>)
    requires Ran(a, b, first) && Ran(b, c, second)
    ensures Ran(a, c, first + second)
  {
    var steps := first + second;
    forall i | 0 <= i < |steps| ensures StepRan(a, c, steps, i) {
      if i < |first| {
        assert StepRan(a, b, first, i) && b[|a| - 1 + i] == c[|a| - 1 + i] && b[|a| + i] == c[|a| + i];
      } else {
        assert StepRan(b, c, second, i - |first|) && steps[i] == second[i - |first|];
      }
    }
  }

  /** The grown part of a log is a run. */
  lemma RanIsRun(before: seq<Fw>, log: seq<Fw>, steps: seq<Step>)
    requires Ran(before, log, steps)
    ensures IsRun(log[|before| - 1..], steps)
  {
    forall i | 0 <= i < |steps|
      ensures Enabled(log[|before| - 1..][i], steps[i]) && log[|before| - 1..][i + 1] == Effect(log[|before| - 1..][i], steps[i])
    {
      assert StepRan(before, log, steps, i);
    }
  }

  /** No packet notices the floors among these steps. */
  ghost predicate FloorsUnnoticed(before: seq<Fw>, log: seq<Fw>, steps: seq<Step>)
    requires before != [] && |log| == |before| + |steps|
  {
    forall i {:trigger steps[i]} :: 0 <= i < |steps| && steps[i].Floor? ==> TreatedAlike(log[|before| - 1 + i], log[|before| + i])
  }

  lemma FloorsAreUnnoticed(before: seq<Fw>, log: seq<Fw>, steps: seq<Step>)
    requires Ran(before, log, steps) && forall i {:trigger Good(log[i])} :: 0 <= i < |log| ==> Good(log[i])
    requires forall i :: 0 <= i < |steps| && steps[i].Floor? ==> !steps[i].quarantineFirst
    ensures FloorsUnnoticed(before, log, steps)
  {
    forall i | 0 <= i < |steps| && steps[i].Floor? ensures TreatedAlike(log[|before| - 1 + i], log[|before| + i]) {
      assert StepRan(before, log, steps, i) && Good(log[|before| - 1 + i]);
      FloorIsUnnoticed(log[|before| - 1 + i], steps[i].id);
    }
  }

  lemma StepKeepsGood(fw: Fw, s: Step)
    requires Good(fw) && Enabled(fw, s)
    ensures Good(Effect(fw, s))
  {
    match s
    case Floor(id, quarantineFirst) => FloorKeepsGood(fw, id, quarantineFirst);
    case Remap(id, keys) => RemapKeepsGood(fw, id, keys);
    case Replace(id, rds) => ReplaceKeepsGood(fw, id, rds);
    case Remove(id) => DeleteKeepsGood(fw, id);
    case Repair => RepairKeepsGood(fw);
  }

  /** A repaired base with no container in it, where every run may begin. */
  lemma FreshBaseIsGood(fw: Fw)
    requires Mapping(fw) == map[] && forall id :: ValidID(id) ==> ChainName(id) !in fw.chains
    ensures Good(BaseRepaired(fw))
  {
    RepairKeepsGood(fw);
  }

  lemma {:induction false} RunsStayGood(states: seq<Fw>, steps: seq<Step>, n: nat)
    requires IsRun(states, steps) && Good(states[0]) && n < |states|
    ensures Good(states[n])
  {
    if n > 0 {
      RunsStayGood(states, steps, n - 1);
      StepKeepsGood(states[n - 1], steps[n - 1]);
    }
  }

  /** Whole-run safety: in every committed state of every run, every mapped
      address leads to an existing chain with its owner's unconditional drop, and
      a packet from or to a mapped address is decided there: dropped, or
      explicitly returned to the caller. It never falls off the end. */
  lemma EveryRunIsSafe(states: seq<Fw>, steps: seq<Step>, n: nat, p: Packet, depth: nat)
    requires IsRun(states, steps) && Good(states[0]) && n < |states| && depth >= 1
    ensures var fw := states[n];
            && MAIN in fw.chains
            && (forall k :: k in Mapping(fw) ==>
                  exists id :: IsContainerChain(fw, id) && Mapping(fw)[k] == GotoChain(id) && DropRule(id) in fw.chains[ChainName(id)])
            && (Mapped(fw, Slice(p, 12)) || Mapped(fw, Slice(p, 16)) ==>
                  Walk(fw, fw.chains[MAIN], p, depth) in {Dropped, Returned})
  {
    RunsStayGood(states, steps, n);
    var fw := states[n];
    DispatchedPacketsAreDecided(fw, p, depth);
    forall k | k in Mapping(fw)
      ensures exists id :: IsContainerChain(fw, id) && Mapping(fw)[k] == GotoChain(id) && DropRule(id) in fw.chains[ChainName(id)]
    {
      var id := ContainerID(Mapping(fw)[k].chain).value;
      ChainNameDeterminesID(Mapping(fw)[k].chain, id);
      assert IsContainerChain(fw, id);
    }
  }

  lemma StepKeepsOtherChains(fw: Fw, s: Step, id: string)
    requires Good(fw) && Enabled(fw, s) && IsContainerChain(fw, id) && s != Remove(id)
    ensures IsContainerChain(Effect(fw, s), id)
  {
    ChainNameDeterminesID(ChainName(id), id);
    if s.Remove? && ChainName(s.id) == ChainName(id) { ChainNameInjective(s.id, id); }
    if s.Repair? { RepairReachesNormalForm(fw); }
  }

  /** Only the deletion of the container itself ever takes its drop away. */
  lemma {:induction false} DropStaysUntilRemoved(states: seq<Fw>, steps: seq<Step>, m: nat, n: nat, id: string)
    requires IsRun(states, steps) && Good(states[0]) && m <= n < |states|
    requires IsContainerChain(states[m], id) && forall i :: m <= i < n ==> steps[i] != Remove(id)
    ensures IsContainerChain(states[n], id) && DropRule(id) in states[n].chains[ChainName(id)]
  {
    if n > m {
      DropStaysUntilRemoved(states, steps, m, n - 1, id);
      RunsStayGood(states, steps, n - 1);
      StepKeepsOtherChains(states[n - 1], steps[n - 1], id);
    }
    RunsStayGood(states, steps, n);
  }

  // ----- quarantine first -----

  /** The steps that can follow the floor of a creation before its authoritative
      policy: its own mappings, and base repairs. */
  ghost predicate BeforePolicy(s: Step, id: string)
  {
    s.Repair? || (s.Remap? && s.id == id)
  }

  lemma RepairKeepsContainerChain(fw: Fw, id: string)
    requires ValidID(id) && ChainName(id) in fw.chains
    ensures ChainName(id) in BaseRepaired(fw).chains && BaseRepaired(fw).chains[ChainName(id)] == fw.chains[ChainName(id)]
  {
    ChainNameDeterminesID(ChainName(id), id);
    BaseChainsAreForeign();
    RepairReachesNormalForm(fw);
  }

  lemma {:induction false} FloorHolds(states: seq<Fw>, steps: seq<Step>, n: nat, id: string)
    requires IsRun(states, steps) && Good(states[0]) && 1 <= n < |states|
    requires steps[0] == Floor(id, true) && forall i :: 1 <= i < n ==> BeforePolicy(steps[i], id)
    ensures IsContainerChain(states[n], id) && Shut(states[n], id)
  {
    if n > 1 {
      FloorHolds(states, steps, n - 1, id);
      RunsStayGood(states, steps, n - 1);
      if steps[n - 1].Repair? {
        RepairKeepsContainerChain(states[n - 1], id);
      } else {
        RemapKeepsShut(states[n - 1], id, steps[n - 1].keys);
      }
    }
  }

  /** With quarantine first, from the floor to the authoritative policy every
      packet that is dispatched to the container's chain is dropped. */
  lemma QuarantineFirstDropsEverything(states: seq<Fw>, steps: seq<Step>, n: nat, id: string, p: Packet, depth: nat)
    requires IsRun(states, steps) && Good(states[0]) && 1 <= n < |states| && depth >= 1
    requires steps[0] == Floor(id, true) && forall i :: 1 <= i < n ==> BeforePolicy(steps[i], id)
    ensures var fw := states[n];
            && MAIN in fw.chains
            && (LeadsTo(fw, Slice(p, 12), id) || (!Mapped(fw, Slice(p, 12)) && LeadsTo(fw, Slice(p, 16), id)) ==>
                  Walk(fw, fw.chains[MAIN], p, depth) == Dropped)
  {
    var fw := states[n];
    FloorHolds(states, steps, n, id);
    RunsStayGood(states, steps, n);
    DispatchedPacketsAreDecided(fw, p, depth);
    DropAtHeadQuarantines(fw.chains[ChainName(id)], id, p, Mapping(fw));
  }

  predicate LeadsTo(fw: Fw, k: Option<Key>, id: string)
  {
    Mapped(fw, k) && Mapping(fw)[k.value].chain == ChainName(id)
  }
}
