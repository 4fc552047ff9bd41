/** From a container's configuration, Docker's answers and the database to the
    rule descriptions of its policy. */
module Generate {
  import opened Wrappers
  import opened Scope
  import Kernel

  // ----- Docker -----

  /** One entry of the container list. */
  datatype Summary = Summary(id: string, names: seq<string>, project: string, service: Option<string>)

  /** What inspection reports; `enabled` is None when the label is malformed. */
  datatype Inspect = Inspect(id: string, name: string, stopped: bool, hasConfig: bool, enabled: Option<bool>,
                             project: string, service: Option<string>, scopeLabel: Option<string>,
                             networks: Option<Networks>)

  /** The daemon's state during one operation. */
  datatype Snapshot = Snapshot(listed: seq<Summary>, conts: map<string, Inspect>)

  /** The container whose policy is generated, on its managed networks. */
  datatype Self = Self(id: string, name: string, service: string, project: string, networks: Networks)

  datatype InspectError = NotFound | Unavailable

  /** The daemon; every call may fail. */
  class Docker {
    var now: Snapshot
    const faults: Kernel.Faults

    constructor (now: Snapshot, faults: Kernel.Faults)
      ensures this.now == now && this.faults == faults
    {
      this.now, this.faults := now, faults;
    }

    method List() returns (r: Option<seq<Summary>>)
      modifies faults
      ensures r.Some? ==> r.value == now.listed
      ensures old(faults.script) == [] ==> faults.script == [] && r.Some?
    {
      var fault := faults.Next();
      r := if fault then None else Some(now.listed);
    }

    method Inspection(id: string) returns (r: Result<Inspect, InspectError>)
      modifies faults
      ensures r.Ok? ==> id in now.conts && r.value == now.conts[id]
      ensures r == Err(NotFound) ==> id !in now.conts
      ensures old(faults.script) == [] ==> faults.script == [] && r != Err(Unavailable) && (r.Ok? <==> id in now.conts)
    {
      var fault := faults.Next();
      if fault { return Err(Unavailable); }
      r := if id in now.conts then Ok(now.conts[id]) else Err(NotFound);
    }
  }

  function StripName(name: string): string
  {
    if name != "" && name[0] == '/' then name[1..] else name
  }

  // ----- which container a rule names -----

  /** containerNameMatchRank: 2 for a container name, 1 for a Compose service of
      the same project, 0 for no match. */
  function NameRank(expected: string, sourceProject: string, c: Summary): nat
  {
    if expected == "" then 0
    else if expected in c.names then 2
    else if expected[0] != '/' && "/" + expected in c.names then 2
    else
      var bare := if expected[0] == '/' then expected[1..] else expected;
      if c.service == Some(bare) && (sourceProject == "" || c.project == sourceProject) then 1 else 0
  }

  function MaxRank(listed: seq<Summary>, expected: string, project: string): nat
  {
    if listed == [] then 0
    else
      var n := |listed| - 1;
      var m, r := MaxRank(listed[..n], expected, project), NameRank(expected, project, listed[n]);
      if r > m then r else m
  }

  function OfRank(listed: seq<Summary>, expected: string, project: string, rank: nat): seq<Summary>
  {
    if listed == [] then []
    else
      var n := |listed| - 1;
      OfRank(listed[..n], expected, project, rank)
      + if NameRank(expected, project, listed[n]) == rank then [listed[n]] else []
  }

  /** The best name matches: all containers of the highest rank, if any matches. */
  function BestMatches(listed: seq<Summary>, expected: string, project: string): seq<Summary>
  {
    var m := MaxRank(listed, expected, project);
    if m == 0 then [] else OfRank(listed, expected, project, m)
  }

  lemma {:induction false} MaxRankIsMax(listed: seq<Summary>, expected: string, project: string)
    ensures forall i :: 0 <= i < |listed| ==> NameRank(expected, project, listed[i]) <= MaxRank(listed, expected, project)
    ensures MaxRank(listed, expected, project) > 0 ==>
              exists i :: 0 <= i < |listed| && NameRank(expected, project, listed[i]) == MaxRank(listed, expected, project)
  {
    if listed != [] {
      var n := |listed| - 1;
      MaxRankIsMax(listed[..n], expected, project);
      var m, r := MaxRank(listed[..n], expected, project), NameRank(expected, project, listed[n]);
      if m >= r && m > 0 {
        var i :| 0 <= i < n && NameRank(expected, project, listed[..n][i]) == m;
        assert listed[i] == listed[..n][i];
      }
    }
  }

  lemma {:induction false} OfRankContents(listed: seq<Summary>, expected: string, project: string, rank: nat)
    ensures forall c :: c in OfRank(listed, expected, project, rank) <==>
                        c in listed && NameRank(expected, project, c) == rank
    ensures rank > MaxRank(listed, expected, project) ==> OfRank(listed, expected, project, rank) == []
  {
    if listed != [] {
      OfRankContents(listed[..|listed| - 1], expected, project, rank);
      assert listed == listed[..|listed| - 1] + [listed[|listed| - 1]];
    }
  }

  /** Whatever matches at all is matched, or outranked by something that is. */
  lemma BestMatchesContents(listed: seq<Summary>, expected: string, project: string)
    ensures forall c :: c in BestMatches(listed, expected, project) <==>
              c in listed && NameRank(expected, project, c) > 0
              && forall d :: d in listed ==> NameRank(expected, project, d) <= NameRank(expected, project, c)
    ensures BestMatches(listed, expected, project) == [] <==> forall c :: c in listed ==> NameRank(expected, project, c) == 0
  {
    var m := MaxRank(listed, expected, project);
    MaxRankIsMax(listed, expected, project);
    OfRankContents(listed, expected, project, m);
    if m > 0 {
      var i :| 0 <= i < |listed| && NameRank(expected, project, listed[i]) == m;
      assert listed[i] in BestMatches(listed, expected, project);
    }
  }

  /** The scan that keeps the matches of the best rank seen so far. */
  method ScanNames(listed: seq<Summary>, expected: string, project: string) returns (best: seq<Summary>)
    ensures best == BestMatches(listed, expected, project)
  {
    var bestNameRank := 0;
    best := [];
    for i := 0 to |listed|
      invariant bestNameRank == MaxRank(listed[..i], expected, project)
      invariant best == BestMatches(listed[..i], expected, project)
    {
      assert listed[..i + 1][..i] == listed[..i];
      var rank := NameRank(expected, project, listed[i]);
      OfRankContents(listed[..i], expected, project, rank);
      if rank != 0 && rank >= bestNameRank {
        if rank > bestNameRank {
          bestNameRank := rank;
          best := [];
        }
        best := best + [listed[i]];
      }
    }
    assert listed[..|listed|] == listed;
  }

  // ----- the destination of a rule -----

  function SameDockerNetwork(srcName: string, src: Option<Endpoint>, dstName: string, dst: Option<Endpoint>): bool
  {
    && src.Some? && dst.Some?
    && if src.value.networkID != "" || dst.value.networkID != ""
       then src.value.networkID == dst.value.networkID else srcName == dstName
  }

  /** Equal Docker network IDs; or no IDs at all, and equal names. */
  predicate OneNetwork(aName: string, a: Endpoint, bName: string, b: Endpoint)
  {
    (a.networkID == b.networkID && a.networkID != "") || (a.networkID == "" && b.networkID == "" && aName == bName)
  }

  /** What becomes of one name match. Gone: it disappeared or stopped. Broken: it
      cannot be a destination at all. Unmanaged: it is on the network, but does
      not manage it. */
  datatype Look = Gone | Broken | Elsewhere | Unmanaged | Viable(cont: Inspect, endpoint: Endpoint)

  predicate Sound(c: Inspect)
  {
    c.hasConfig && c.networks.Some? && c.enabled == Some(true) && ValidScope(c.scopeLabel, c.project, c.networks.value)
  }

  function Managed(c: Inspect): Networks
  {
    if c.networks.Some? then PolicyNetworks(c.scopeLabel, c.project, c.networks.value) else map[]
  }

  function LookAt(conts: map<string, Inspect>, id: string, network: string, srcName: string, src: Option<Endpoint>): Look
  {
    if id !in conts || conts[id].stopped then Gone
    else
      var c := conts[id];
      if !Sound(c) then Broken
      else if FindNetwork(network, c.project, c.networks.value).None? then Elsewhere
      else
        var dst := FindNetwork(network, c.project, Managed(c));
        if dst.None? then Unmanaged
        else if Managed(c)[dst.value].None? || !SameDockerNetwork(srcName, src, dst.value, Managed(c)[dst.value]) then Elsewhere
        else Viable(c, Managed(c)[dst.value].value)
  }

  /** Deferred: no such container is running; the rule waits for it. */
  datatype Destination = Refused | Deferred | Chosen(cont: Inspect, endpoint: Endpoint)

  datatype Tally = Tally(broken: bool, present: nat, unmanaged: nat, viable: seq<(Inspect, Endpoint)>)

  function Count(t: Tally, look: Look): Tally
  {
    match look
    case Gone => t
    case Broken => t.(broken := true)
    case Elsewhere => t.(present := t.present + 1)
    case Unmanaged => t.(present := t.present + 1, unmanaged := t.unmanaged + 1)
    case Viable(c, e) => t.(present := t.present + 1, viable := t.viable + [(c, e)])
  }

  function Tallied(conts: map<string, Inspect>, matches: seq<Summary>, network: string, srcName: string,
                   src: Option<Endpoint>): (t: Tally)
    ensures t.unmanaged <= t.present
  {
    if matches == [] then Tally(false, 0, 0, [])
    else
      var n := |matches| - 1;
      Count(Tallied(conts, matches[..n], network, srcName, src), LookAt(conts, matches[n].id, network, srcName, src))
  }

  function Decide(t: Tally): Destination
  {
    if t.broken || (t.viable == [] && t.present != 0) || |t.viable| > 1 then Refused
    else if t.viable == [] then Deferred
    else Chosen(t.viable[0].0, t.viable[0].1)
  }

  method LookInto(docker: Docker, id: string, network: string, srcName: string, src: Option<Endpoint>)
    returns (r: Option<Look>)
    modifies docker.faults
    ensures r.Some? ==> r.value == LookAt(docker.now.conts, id, network, srcName, src)
    ensures old(docker.faults.script) == [] ==> docker.faults.script == [] && r.Some?
  {
    var inspected := docker.Inspection(id);
    if inspected.Err? { return if inspected.error == NotFound then Some(Gone) else None; }
    var cont := inspected.value;
    if cont.stopped { return Some(Gone); }
    var managed := ManagedPeer(cont);
    if managed.None? { return Some(Broken); }
    if FindNetwork(network, cont.project, cont.networks.value).None? { return Some(Elsewhere); }
    var dst := FindNetwork(network, cont.project, managed.value);
    if dst.None? { return Some(Unmanaged); }
    var endpoint := managed.value[dst.value];
    if endpoint.None? || !SameDockerNetwork(srcName, src, dst.value, endpoint) { return Some(Elsewhere); }
    return Some(Viable(cont, endpoint.value));
  }

  /** Inspection of the name matches, and the choice among them. */
  method Examine(docker: Docker, matches: seq<Summary>, network: string, srcName: string, src: Option<Endpoint>)
    returns (r: Destination)
    modifies docker.faults
    ensures !r.Refused? ==> r == Decide(Tallied(docker.now.conts, matches, network, srcName, src))
    ensures old(docker.faults.script) == [] ==>
              docker.faults.script == [] && r == Decide(Tallied(docker.now.conts, matches, network, srcName, src))
  {
    var nameMatches, unmanagedMatches := |matches|, 0;
    var candidates: seq<(Inspect, Endpoint)> := [];
    for i := 0 to |matches|
      invariant old(docker.faults.script) == [] ==> docker.faults.script == []
      invariant nameMatches >= |matches| - i
      invariant Tallied(docker.now.conts, matches[..i], network, srcName, src)
                == Tally(false, nameMatches - (|matches| - i), unmanagedMatches, candidates)
    {
      assert matches[..i + 1][..i] == matches[..i];
      var look := LookInto(docker, matches[i].id, network, srcName, src);
      if look.None? { return Refused; }
      match look.value {
        case Gone =>
          nameMatches := nameMatches - 1;
        case Broken =>
          BrokenStays(docker.now.conts, matches, i + 1, network, srcName, src);
          return Refused;
        case Elsewhere =>
        case Unmanaged =>
          unmanagedMatches := unmanagedMatches + 1;
        case Viable(cont, endpoint) =>
          candidates := candidates + [(cont, endpoint)];
      }
    }
    assert matches[..|matches|] == matches;
    if |candidates| == 0 && unmanagedMatches != 0 { return Refused; }
    if |candidates| == 0 && nameMatches != 0 { return Refused; }
    if |candidates| != 0 {
      if |candidates| != 1 { return Refused; }
      return Chosen(candidates[0].0, candidates[0].1);
    }
    return Deferred;
  }

  lemma {:induction false} BrokenStays(conts: map<string, Inspect>, matches: seq<Summary>, i: nat, network: string,
                                       srcName: string, src: Option<Endpoint>)
    requires i <= |matches| && Tallied(conts, matches[..i], network, srcName, src).broken
    ensures Tallied(conts, matches, network, srcName, src).broken
    decreases |matches| - i
  {
    if i == |matches| {
      assert matches[..i] == matches;
    } else {
      assert matches[..i + 1][..i] == matches[..i];
      BrokenStays(conts, matches, i + 1, network, srcName, src);
    }
  }

  /** The checks on a peer before it can be part of an edge. */
  method ManagedPeer(cont: Inspect) returns (r: Option<Networks>)
    ensures r.Some? <==> Sound(cont)
    ensures r.Some? ==> r.value == Managed(cont)
  {
    if !cont.hasConfig { return None; }
    if cont.networks.None? { return None; }
    if cont.enabled != Some(true) { return None; }
    var managed := ResolveValidManagedNetworks(cont.scopeLabel, cont.project, cont.networks.value);
    if managed.Err? { return None; }
    return Some(managed.value);
  }
}
