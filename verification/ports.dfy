/** The rules for published ports: access through a network's gateway, the drops
    that keep localhost away from the host ports, and external access. */
module Ports {
  import opened Names
  import opened Compiler
  import opened Config
  import opened Wrappers
  import opened Policy
  import opened Scope
  import opened Generate
  import opened Outputs

  /** A host binding; `port` is the text of the host port. */
  datatype HostPort = HostPort(ip: IP, port: string)

  /** A container port with its bindings; `proto` as Docker spells it. */
  datatype PublishedPort = PublishedPort(num: nat, proto: string, hostPorts: seq<HostPort>)

  datatype Access = Access(allow: bool, logPrefix: string, ips: Option<seq<AddrOrRange>>, verdict: PolicyVerdict)

  /** The port policy of one container. `nets` are the networks it is made for, and
      `ports` the published ports, each in sorted order; `published` is Docker's
      gateway endpoint under an explicit scope. */
  datatype PortPolicy = PortPolicy(self: Self, nets: seq<string>, published: Option<string>, ports: seq<PublishedPort>,
                             localhost: Access, external: Access)

  /** What Docker and the label's parsers guarantee. */
  predicate ProperPorts(m: PortPolicy)
  {
    && ValidID(m.self.id) && (forall i :: 0 <= i < |m.ports| ==> 1 <= m.ports[i].num <= MAX_PORT)
    && PlainVerdict(m.localhost.verdict) && PlainVerdict(m.external.verdict) && !m.external.verdict.drop
    && (m.external.ips.Some? ==> forall i :: 0 <= i < |m.external.ips.value| ==> ValidAddrs(m.external.ips.value[i]))
  }

  /** A port rule is the container's own, or a localhost drop in the main chain. */
  ghost predicate PortRule(id: string, rd: RuleDetails)
  {
    || (ValidDetails(rd) && rd.chain == ChainName(id) && rd.estChain == None && rd.contID == id)
    || IsLocalhostDrop(id, rd)
  }

  /** What a policy is made from besides the managed networks: all attached networks
      with their names in sorted order, whether the scope is explicit, the published
      ports in sorted order, and the label's two kinds of access. */
  datatype PublishedPorts = PublishedPorts(attached: Networks, names: seq<string>, explicit: bool, ports: seq<PublishedPort>,
                                           localhost: Access, external: Access)

  /** What Docker and the label's parsers guarantee. */
  predicate ProperPublication(pub: PublishedPorts)
  {
    && (forall i :: 0 <= i < |pub.names| ==> pub.names[i] in pub.attached) && (forall n :: n in pub.attached ==> n in pub.names)
    && (forall i :: 0 <= i < |pub.ports| ==> 1 <= pub.ports[i].num <= MAX_PORT)
    && PlainVerdict(pub.localhost.verdict) && PlainVerdict(pub.external.verdict) && !pub.external.verdict.drop
    && (pub.external.ips.Some? ==> forall i :: 0 <= i < |pub.external.ips.value| ==> ValidAddrs(pub.external.ips.value[i]))
  }

  const NO_ACCESS := Access(false, "", None, NO_VERDICT)

  type Publication = pub: PublishedPorts | ProperPublication(pub) witness PublishedPorts(map[], [], false, [], NO_ACCESS, NO_ACCESS)

  // ----- the gateway endpoint -----

  predicate GatewayCapable(e: Option<Endpoint>) { e.Some? && e.value.ip.V4? && e.value.gateway.V4? }

  predicate WellFormedEndpoint(e: Option<Endpoint>)
  {
    e.Some? && e.value.ip.V4? && !e.value.gateway.V6?
  }

  /** Among the first `n` names, the first of the gateway-capable with the highest
      priority. */
  function Primary(names: seq<string>, networks: Networks, n: nat): (r: Option<nat>)
    requires n <= |names| && forall i :: 0 <= i < |names| ==> names[i] in networks
    ensures r.Some? ==> r.value < n && GatewayCapable(networks[names[r.value]])
  {
    if n == 0 then None
    else
      var p, e := Primary(names, networks, n - 1), networks[names[n - 1]];
      if GatewayCapable(e) && (p.None? || e.value.priority > networks[names[p.value]].value.priority) then Some(n - 1) else p
  }

  lemma {:induction false} PrimaryIsFirstBest(names: seq<string>, networks: Networks, n: nat)
    requires n <= |names| && forall i :: 0 <= i < |names| ==> names[i] in networks
    ensures var r := Primary(names, networks, n);
            && (r.Some? <==> exists i :: 0 <= i < n && GatewayCapable(networks[names[i]]))
            && (r.Some? ==> forall i :: 0 <= i < n && GatewayCapable(networks[names[i]]) ==>
                  networks[names[i]].value.priority <= networks[names[r.value]].value.priority
                  && (i < r.value ==> networks[names[i]].value.priority < networks[names[r.value]].value.priority))
  {
    if n > 0 { PrimaryIsFirstBest(names, networks, n - 1); }
  }

  /** None is an error: a malformed endpoint, or no gateway-capable one. */
  function Gateway(names: seq<string>, networks: Networks): (r: Option<string>)
    requires forall i :: 0 <= i < |names| ==> names[i] in networks
  {
    if exists i :: 0 <= i < |names| && !WellFormedEndpoint(networks[names[i]]) then None
    else
      var p := Primary(names, networks, |names|);
      if p.None? then None else Some(names[p.value])
  }

  /** dockerIPv4GatewayNetworkName, over the sorted names of the attached networks. */
  method GatewayNetworkName(names: seq<string>, networks: Networks) returns (r: Option<string>)
    requires forall i :: 0 <= i < |names| ==> names[i] in networks
    ensures r == Gateway(names, networks)
  {
    var primary: Option<nat> := None;
    for i := 0 to |names|
      invariant forall k :: 0 <= k < i ==> WellFormedEndpoint(networks[names[k]])
      invariant primary == Primary(names, networks, i)
    {
      var endpoint := networks[names[i]];
      if endpoint.None? { return None; }
      if !endpoint.value.ip.V4? { return None; }
      if endpoint.value.gateway.NoIP? { continue; }
      if !endpoint.value.gateway.V4? { return None; }
      if primary.None? || endpoint.value.priority > networks[names[primary.value]].value.priority { primary := Some(i); }
    }
    return if primary.None? then None else Some(names[primary.value]);
  }

  /** An endpoint through which Docker can route to the outside. */
  predicate HasGateway(networks: Networks, n: string)
  {
    n in networks && networks[n].Some? && networks[n].value.ip.V4? && networks[n].value.gateway.V4?
  }

  /** It is an error if an attached endpoint has no IPv4 address, or a gateway that is
      not IPv4, or if none has a gateway. Otherwise it is the one of the highest
      priority, and of those the first. */
  lemma GatewayExactly(names: seq<string>, networks: Networks, i: nat)
    requires i < |names| && forall j :: 0 <= j < |names| ==> names[j] in networks
    requires forall j, k :: 0 <= j < k < |names| ==> names[j] != names[k]
    ensures Gateway(names, networks) == Some(names[i]) <==>
              && (forall n :: n in names ==> networks[n].Some? && networks[n].value.ip.V4? && !networks[n].value.gateway.V6?)
              && HasGateway(networks, names[i])
              && forall j :: 0 <= j < |names| && HasGateway(networks, names[j]) ==>
                   && networks[names[j]].value.priority <= networks[names[i]].value.priority
                   && (j < i ==> networks[names[j]].value.priority < networks[names[i]].value.priority)
  {
    PrimaryIsFirstBest(names, networks, |names|);
    forall j | 0 <= j < |names| ensures GatewayCapable(networks[names[j]]) <==> HasGateway(networks, names[j]) {}
    var p := Primary(names, networks, |names|);
    if HasGateway(networks, names[i]) {
      assert GatewayCapable(networks[names[i]]);
      if p.Some? { assert HasGateway(networks, names[p.value]); }
    }
  }

  // ----- the networks that rules are made for -----

  /** The names that are managed, in their order. */
  function ManagedNames(names: seq<string>, managed: Networks): (r: seq<string>)
    ensures forall n :: n in r <==> n in names && n in managed
  {
    if names == [] then []
    else ManagedNames(names[..|names| - 1], managed) + if names[|names| - 1] in managed then [names[|names| - 1]] else []
  }

  /** Every managed network; under an explicit scope only Docker's gateway endpoint,
      and nothing if that is not managed. */
  function ChosenNets(pub: Publication, managed: Networks): Option<seq<string>>
  {
    if !pub.explicit then Some(ManagedNames(pub.names, managed))
    else
      var g := Gateway(pub.names, pub.attached);
      if g.None? then None else Some(if g.value in managed then [g.value] else [])
  }

  function PolicyOn(self: Self, pub: Publication, nets: seq<string>): PortPolicy
  {
    PortPolicy(self, nets, if pub.explicit then Gateway(pub.names, pub.attached) else None, pub.ports, pub.localhost, pub.external)
  }

  predicate NothingPublished(ports: seq<PublishedPort>) { forall i :: 0 <= i < |ports| ==> ports[i].hostPorts == [] }

  /** createPortMappingRules; None is an error. */
  function PublishedRules(self: Self, pub: Publication): Option<seq<RuleDetails>>
  {
    if NothingPublished(pub.ports) then Some([])
    else
      var nets := ChosenNets(pub, self.networks);
      if nets.None? then None else MappingRules(PolicyOn(self, pub, nets.value))
  }

  // ----- descriptions -----

  function ParseProtocol(text: string): Option<Protocol>
  {
    if text == "tcp" then Some(Tcp) else if text == "udp" then Some(Udp) else None
  }

  /** Bound to every address or to localhost itself. */
  predicate ReachableLocally(ip: IP) { ip.V4? && (ip.addr == 0 || ip.addr == LOCALHOST) }

  function GatewayOf(m: PortPolicy, net: string): Option<Addr32>
  {
    if net in m.self.networks && GatewayCapable(m.self.networks[net]) then Some(m.self.networks[net].value.gateway.addr) else None
  }

  function AddrOn(m: PortPolicy, net: string): Key
  {
    if HasV4(m.self.networks, net) then KeyOf(m.self.networks[net].value.ip.addr) else []
  }

  function Inbound(m: PortPolicy, net: string, a: Access, ips: Option<seq<AddrOrRange>>, proto: Protocol, num: nat, drop: bool): RuleDetails
  {
    var prefix := if a.logPrefix == "" then "" else FormatLogPrefix(a.logPrefix, m.self.name, m.self.id);
    RuleDetails(true, AddrOn(m, net),
                EMPTY_RULE.(logPrefix := prefix, ips := ips, proto := proto, dstPorts := [RulePorts(num, 0, 0)],
                            verdict := a.verdict.(drop := drop)),
                ChainName(m.self.id), None, m.self.id, "")
  }

  /** A gateway rule is pointless only where all external traffic is allowed anyway. */
  predicate NeedsGatewayRule(m: PortPolicy)
  {
    !m.localhost.allow || !m.external.allow || (m.external.ips.Some? && m.external.ips.value != [])
  }

  /** Whether a reachable binding is kept from localhost by a drop in the main chain. */
  predicate DropsLocalhost(m: PortPolicy, net: string)
  {
    !m.localhost.allow && (m.published.None? || m.published == Some(net))
  }

  /** The descriptions for one binding; None is an error. */
  function BindingRules(m: PortPolicy, net: string, proto: Protocol, num: nat, hp: HostPort): Option<seq<RuleDetails>>
  {
    if !hp.ip.V4? then None
    else if !ReachableLocally(hp.ip) then Some([])
    else
      var gateway := if GatewayOf(m, net).Some? && NeedsGatewayRule(m)
                     then [Inbound(m, net, m.localhost, Some([Addr(GatewayOf(m, net).value)]), proto, num, !m.localhost.allow)]
                     else [];
      if !DropsLocalhost(m, net) then Some(gateway)
      else if ParseUint16(hp.port).None? then None
      else Some(gateway + [LocalhostDrop(MAIN, proto, ParseUint16(hp.port).value, m.self.id)])
  }

  function BindingParts(m: PortPolicy, net: string, proto: Protocol, port: PublishedPort): (r: seq<Option<seq<RuleDetails>>>)
    ensures |r| == |port.hostPorts|
  {
    seq(|port.hostPorts|, i requires 0 <= i < |port.hostPorts| => BindingRules(m, net, proto, port.num, port.hostPorts[i]))
  }

  /** External access, if the port is published at all. */
  function ExternalRules(m: PortPolicy, net: string, proto: Protocol, port: PublishedPort): seq<RuleDetails>
  {
    if m.external.allow && port.hostPorts != []
    then [Inbound(m, net, m.external, m.external.ips, proto, port.num, m.external.verdict.drop)] else []
  }

  function RulesForPort(m: PortPolicy, net: string, port: PublishedPort): Option<seq<RuleDetails>>
  {
    var proto := ParseProtocol(port.proto);
    if proto.None? then None
    else
      var b := ConcatAll(BindingParts(m, net, proto.value, port));
      if b.None? then None else Some(b.value + ExternalRules(m, net, proto.value, port))
  }

  function PortParts(m: PortPolicy, net: string): (r: seq<Option<seq<RuleDetails>>>)
    ensures |r| == |m.ports|
  {
    seq(|m.ports|, i requires 0 <= i < |m.ports| => RulesForPort(m, net, m.ports[i]))
  }

  function NetworkParts(m: PortPolicy): (r: seq<Option<seq<RuleDetails>>>)
    ensures |r| == |m.nets|
  {
    seq(|m.nets|, i requires 0 <= i < |m.nets| => ConcatAll(PortParts(m, m.nets[i])))
  }

  function MappingRules(m: PortPolicy): Option<seq<RuleDetails>>
  {
    if NothingPublished(m.ports) then Some([]) else ConcatAll(NetworkParts(m))
  }

  // ----- createPortMappingRules -----

  method PortRulesOf(m: PortPolicy, net: string, port: PublishedPort) returns (r: Option<seq<RuleDetails>>)
    ensures r == RulesForPort(m, net, port)
  {
    var proto := ParseProtocol(port.proto);
    if proto.None? { return None; }
    ghost var parts := BindingParts(m, net, proto.value, port);
    var rules: seq<RuleDetails> := [];
    for i := 0 to |port.hostPorts|
      invariant ConcatAll(parts[..i]) == Some(rules)
    {
      ConcatAllStep(parts, i);
      var hp := port.hostPorts[i];
      if !hp.ip.V4? { return None; }
      if !ReachableLocally(hp.ip) { assert rules + [] == rules; continue; }
      var added := [];
      if GatewayOf(m, net).Some? && NeedsGatewayRule(m) {
        added := [Inbound(m, net, m.localhost, Some([Addr(GatewayOf(m, net).value)]), proto.value, port.num, !m.localhost.allow)];
      }
      if DropsLocalhost(m, net) {
        var hostPort := ParseUint16(hp.port);
        if hostPort.None? { return None; }
        added := added + [LocalhostDrop(MAIN, proto.value, hostPort.value, m.self.id)];
      }
      rules := rules + added;
    }
    assert parts[..|port.hostPorts|] == parts;
    return Some(rules + ExternalRules(m, net, proto.value, port));
  }

  method NetworkRulesOf(m: PortPolicy, net: string) returns (r: Option<seq<RuleDetails>>)
    ensures r == ConcatAll(PortParts(m, net))
  {
    ghost var parts := PortParts(m, net);
    var rules: seq<RuleDetails> := [];
    for i := 0 to |m.ports|
      invariant ConcatAll(parts[..i]) == Some(rules)
    {
      ConcatAllStep(parts, i);
      var one := PortRulesOf(m, net, m.ports[i]);
      if one.None? { return None; }
      rules := rules + one.value;
    }
    assert parts[..|m.ports|] == parts;
    return Some(rules);
  }

  method RulesOn(m: PortPolicy) returns (r: Option<seq<RuleDetails>>)
    ensures r == ConcatAll(NetworkParts(m))
  {
    ghost var parts := NetworkParts(m);
    var rules: seq<RuleDetails> := [];
    for i := 0 to |m.nets|
      invariant ConcatAll(parts[..i]) == Some(rules)
    {
      ConcatAllStep(parts, i);
      var one := NetworkRulesOf(m, m.nets[i]);
      if one.None? { return None; }
      rules := rules + one.value;
    }
    assert parts[..|m.nets|] == parts;
    return Some(rules);
  }

  method CreatePortMappingRules(self: Self, pub: Publication) returns (r: Option<seq<RuleDetails>>)
    ensures r == PublishedRules(self, pub)
  {
    if forall i :: 0 <= i < |pub.ports| ==> pub.ports[i].hostPorts == [] { return Some([]); }
    var published: Option<string>, nets := None, ManagedNames(pub.names, self.networks);
    if pub.explicit {
      published := GatewayNetworkName(pub.names, pub.attached);
      if published.None? { return None; }
      if published.value !in self.networks {
        assert ConcatAll(NetworkParts(PolicyOn(self, pub, []))) == Some([]);
        return Some([]);
      }
      nets := [published.value];
    }
    r := RulesOn(PortPolicy(self, nets, published, pub.ports, pub.localhost, pub.external));
  }

  // ----- what is generated -----

  /** The description comes from a binding or the external access of this port. */
  ghost predicate FromPort(m: PortPolicy, net: string, port: PublishedPort, rd: RuleDetails)
  {
    var proto := ParseProtocol(port.proto);
    && proto.Some?
    && (|| rd in ExternalRules(m, net, proto.value, port)
        || exists i :: 0 <= i < |port.hostPorts| && BindingRules(m, net, proto.value, port.num, port.hostPorts[i]).Some?
                       && rd in BindingRules(m, net, proto.value, port.num, port.hostPorts[i]).value)
  }

  lemma PortContents(m: PortPolicy, net: string, port: PublishedPort, rd: RuleDetails)
    requires RulesForPort(m, net, port).Some?
    ensures rd in RulesForPort(m, net, port).value <==> FromPort(m, net, port, rd)
  {
    var proto := ParseProtocol(port.proto).value;
    var parts := BindingParts(m, net, proto, port);
    ConcatAllContents(parts);
    assert forall i :: 0 <= i < |parts| ==> parts[i] == BindingRules(m, net, proto, port.num, port.hostPorts[i]);
    assert FromPort(m, net, port, rd) <==>
           rd in ExternalRules(m, net, proto, port) || exists i :: 0 <= i < |parts| && parts[i].Some? && rd in parts[i].value;
  }

  ghost predicate FromNetwork(m: PortPolicy, net: string, rd: RuleDetails)
  {
    exists i :: 0 <= i < |m.ports| && FromPort(m, net, m.ports[i], rd)
  }

  lemma NetworkContents(m: PortPolicy, net: string, rd: RuleDetails)
    requires ConcatAll(PortParts(m, net)).Some?
    ensures rd in ConcatAll(PortParts(m, net)).value <==> FromNetwork(m, net, rd)
  {
    var parts := PortParts(m, net);
    ConcatAllContents(parts);
    forall i | 0 <= i < |m.ports| ensures parts[i].Some? && (rd in parts[i].value <==> FromPort(m, net, m.ports[i], rd)) {
      assert parts[i] == RulesForPort(m, net, m.ports[i]);
      PortContents(m, net, m.ports[i], rd);
    }
  }

  lemma MappingContents(m: PortPolicy, rd: RuleDetails)
    requires MappingRules(m).Some? && exists i :: 0 <= i < |m.ports| && m.ports[i].hostPorts != []
    ensures rd in MappingRules(m).value <==> exists i :: 0 <= i < |m.nets| && FromNetwork(m, m.nets[i], rd)
  {
    var parts := NetworkParts(m);
    ConcatAllContents(parts);
    forall i | 0 <= i < |m.nets| ensures parts[i].Some? && (rd in parts[i].value <==> FromNetwork(m, m.nets[i], rd)) {
      assert parts[i] == ConcatAll(PortParts(m, m.nets[i]));
      NetworkContents(m, m.nets[i], rd);
    }
    assert MappingRules(m) == ConcatAll(parts);
  }

  lemma FromPortIsPortRule(m: PortPolicy, net: string, port: PublishedPort, rd: RuleDetails)
    requires ProperPorts(m) && 1 <= port.num <= MAX_PORT && FromPort(m, net, port, rd)
    ensures PortRule(m.self.id, rd)
  {
    assert Ips(rd.cfg) == if rd.cfg.ips.Some? then rd.cfg.ips.value else [];
    assert ValidAddrBytes(AddrOn(m, net));
  }

  /** The port mapper generates only rules of the container's own chain and
      localhost drops that the base repair recognises and keeps. */
  lemma GeneratedArePortRules(m: PortPolicy)
    requires ProperPorts(m) && MappingRules(m).Some?
    ensures forall i :: 0 <= i < |MappingRules(m).value| ==> PortRule(m.self.id, MappingRules(m).value[i])
  {
    if exists i :: 0 <= i < |m.ports| && m.ports[i].hostPorts != [] {
      forall i | 0 <= i < |MappingRules(m).value| ensures PortRule(m.self.id, MappingRules(m).value[i]) {
        var rd := MappingRules(m).value[i];
        MappingContents(m, rd);
        var n :| 0 <= n < |m.nets| && FromNetwork(m, m.nets[n], rd);
        var k :| 0 <= k < |m.ports| && FromPort(m, m.nets[n], m.ports[k], rd);
        FromPortIsPortRule(m, m.nets[n], m.ports[k], rd);
      }
    }
  }

  /** Localhost is kept from a host port exactly when local access is denied, the
      binding can be reached locally, and, under an explicit scope, Docker routes
      the port through a managed endpoint. */
  lemma LocalhostDropsAreExact(m: PortPolicy, proto: Protocol, hostPort: nat)
    requires ProperPorts(m) && MappingRules(m).Some? && hostPort <= MAX_PORT
    ensures LocalhostDrop(MAIN, proto, hostPort, m.self.id) in MappingRules(m).value <==>
            exists n, k, i :: Denied(m, n, k, i, proto, hostPort)
  {
    var rd := LocalhostDrop(MAIN, proto, hostPort, m.self.id);
    ChainNameDeterminesID(MAIN, m.self.id);
    if exists k :: 0 <= k < |m.ports| && m.ports[k].hostPorts != [] {
      MappingContents(m, rd);
      if rd in MappingRules(m).value {
        var n :| 0 <= n < |m.nets| && FromNetwork(m, m.nets[n], rd);
        var k :| 0 <= k < |m.ports| && FromPort(m, m.nets[n], m.ports[k], rd);
        DropComesFromBinding(m, n, k, proto, hostPort);
      }
      if n, k, i :| Denied(m, n, k, i, proto, hostPort) {
        DeniedBindingIsDropped(m, n, k, i, proto, hostPort);
      }
    }
  }

  ghost predicate Denied(m: PortPolicy, n: nat, k: nat, i: nat, proto: Protocol, hostPort: nat)
  {
    && n < |m.nets| && k < |m.ports| && i < |m.ports[k].hostPorts|
    && DropsLocalhost(m, m.nets[n]) && ParseProtocol(m.ports[k].proto) == Some(proto)
    && ReachableLocally(m.ports[k].hostPorts[i].ip) && ParseUint16(m.ports[k].hostPorts[i].port) == Some(hostPort)
  }

  lemma DropComesFromBinding(m: PortPolicy, n: nat, k: nat, proto: Protocol, hostPort: nat)
    requires n < |m.nets| && k < |m.ports|
    requires FromPort(m, m.nets[n], m.ports[k], LocalhostDrop(MAIN, proto, hostPort, m.self.id))
    ensures exists i :: Denied(m, n, k, i, proto, hostPort)
  {
    var rd, port := LocalhostDrop(MAIN, proto, hostPort, m.self.id), m.ports[k];
    ChainNameDeterminesID(MAIN, m.self.id);
    var i :| 0 <= i < |port.hostPorts| && BindingRules(m, m.nets[n], ParseProtocol(port.proto).value, port.num, port.hostPorts[i]).Some?
             && rd in BindingRules(m, m.nets[n], ParseProtocol(port.proto).value, port.num, port.hostPorts[i]).value;
    assert rd.cfg.dstPorts[0].single == hostPort && rd.cfg.proto == proto;
    assert Denied(m, n, k, i, proto, hostPort);
  }

  lemma DeniedBindingIsDropped(m: PortPolicy, n: nat, k: nat, i: nat, proto: Protocol, hostPort: nat)
    requires Denied(m, n, k, i, proto, hostPort) && MappingRules(m).Some?
    ensures LocalhostDrop(MAIN, proto, hostPort, m.self.id) in MappingRules(m).value
  {
    var rd := LocalhostDrop(MAIN, proto, hostPort, m.self.id);
    assert m.ports[k].hostPorts != [];
    MappingContents(m, rd);
    var b := BindingRules(m, m.nets[n], proto, m.ports[k].num, m.ports[k].hostPorts[i]);
    assert rd == b.value[|b.value| - 1];
    assert FromPort(m, m.nets[n], m.ports[k], rd);
    assert FromNetwork(m, m.nets[n], rd);
  }

  lemma ProperPolicyOn(self: Self, pub: Publication, nets: seq<string>)
    requires ValidID(self.id)
    ensures ProperPorts(PolicyOn(self, pub, nets))
  {
  }

  /** Whatever is published, only rules of the own chain and localhost drops are generated. */
  lemma PublishedArePortRules(self: Self, pub: Publication)
    requires ValidID(self.id) && PublishedRules(self, pub).Some?
    ensures forall i :: 0 <= i < |PublishedRules(self, pub).value| ==> PortRule(self.id, PublishedRules(self, pub).value[i])
  {
    if !NothingPublished(pub.ports) {
      var m := PolicyOn(self, pub, ChosenNets(pub, self.networks).value);
      ProperPolicyOn(self, pub, m.nets);
      GeneratedArePortRules(m);
    }
  }

  /** Docker routes published ports through this endpoint. */
  predicate Routes(pub: Publication, net: string)
  {
    if pub.explicit then Gateway(pub.names, pub.attached) == Some(net) else net in pub.attached
  }

  predicate IsNamed(proto: Protocol, text: string) { (proto.Tcp? && text == "tcp") || (proto.Udp? && text == "udp") }

  /** 0.0.0.0 or 127.0.0.1 */
  predicate OnHost(ip: IP) { ip == V4(0) || ip == V4(0x7F00_0001) }

  /** A binding of a published port that is reachable locally, on that host port. */
  ghost predicate BoundLocally(pub: Publication, proto: Protocol, hostPort: nat)
  {
    exists k, i :: LocalBinding(pub.ports, k, i, proto, hostPort)
  }

  predicate LocalBinding(ports: seq<PublishedPort>, k: nat, i: nat, proto: Protocol, hostPort: nat)
  {
    && k < |ports| && i < |ports[k].hostPorts| && IsNamed(proto, ports[k].proto)
    && OnHost(ports[k].hostPorts[i].ip) && ParseUint16(ports[k].hostPorts[i].port) == Some(hostPort)
  }

  /** The host port would be kept from localhost if local access were denied. */
  ghost predicate ServedLocally(self: Self, pub: Publication, proto: Protocol, hostPort: nat)
  {
    BoundLocally(pub, proto, hostPort) && exists net :: net in self.networks && Routes(pub, net)
  }

  lemma DeniedIsServed(self: Self, pub: Publication, m: PortPolicy, n: nat, k: nat, i: nat, proto: Protocol, hostPort: nat)
    requires !NothingPublished(pub.ports) && ChosenNets(pub, self.networks).Some?
    requires m == PolicyOn(self, pub, ChosenNets(pub, self.networks).value) && Denied(m, n, k, i, proto, hostPort)
    ensures !pub.localhost.allow && ServedLocally(self, pub, proto, hostPort)
  {
    assert LocalBinding(pub.ports, k, i, proto, hostPort);
    assert m.nets[n] in m.nets;
    assert m.nets[n] in self.networks && Routes(pub, m.nets[n]);
  }

  lemma ServedIsDenied(self: Self, pub: Publication, m: PortPolicy, proto: Protocol, hostPort: nat)
    requires ChosenNets(pub, self.networks).Some? && m == PolicyOn(self, pub, ChosenNets(pub, self.networks).value)
    requires !pub.localhost.allow && ServedLocally(self, pub, proto, hostPort)
    ensures exists n, k, i :: Denied(m, n, k, i, proto, hostPort)
  {
    var k, i :| LocalBinding(pub.ports, k, i, proto, hostPort);
    var net :| net in self.networks && Routes(pub, net);
    assert net in m.nets;
    var n :| 0 <= n < |m.nets| && m.nets[n] == net;
    assert Denied(m, n, k, i, proto, hostPort);
  }

  /** Localhost is kept from a host port exactly when local access is denied, a
      binding on it can be reached locally, and a managed network routes it: any
      attached one, or under an explicit scope Docker's gateway endpoint. */
  lemma PublishedDropsAreExact(self: Self, pub: Publication, proto: Protocol, hostPort: nat)
    requires ValidID(self.id) && PublishedRules(self, pub).Some? && hostPort <= MAX_PORT
    ensures LocalhostDrop(MAIN, proto, hostPort, self.id) in PublishedRules(self, pub).value <==>
            !pub.localhost.allow && ServedLocally(self, pub, proto, hostPort)
  {
    if NothingPublished(pub.ports) {
      assert !BoundLocally(pub, proto, hostPort);
    } else {
      var m := PolicyOn(self, pub, ChosenNets(pub, self.networks).value);
      ProperPolicyOn(self, pub, m.nets);
      LocalhostDropsAreExact(m, proto, hostPort);
      if n: nat, k: nat, i: nat :| Denied(m, n, k, i, proto, hostPort) { DeniedIsServed(self, pub, m, n, k, i, proto, hostPort); }
      if !pub.localhost.allow && ServedLocally(self, pub, proto, hostPort) { ServedIsDenied(self, pub, m, proto, hostPort); }
    }
  }
}
