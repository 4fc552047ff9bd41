/** User configuration: rules, their validation and normalisation, the text
    form of ports, and the persisted form of waiting rules. */
module Config {
  import opened Wrappers

  const MAX_PORT := 65535
  const MAX_ADDR := 0xFFFF_FFFF

  /** An address, an inclusive range, or the zero value that is neither. */
  datatype AddrOrRange = Addr(addr: nat) | Range(low: nat, high: nat) | Neither

  predicate ValidAddrs(a: AddrOrRange)
  {
    match a
    case Addr(x) => x <= MAX_ADDR
    case Range(l, h) => l <= h <= MAX_ADDR
    case Neither => false
  }

  datatype Protocol = InvalidProto | Tcp | Udp

  /** `single` zero means the interval is meant. */
  datatype RulePorts = RulePorts(single: nat, min: nat, max: nat)

  predicate ValidPorts(p: RulePorts)
  {
    if p.single != 0 then p.single <= MAX_PORT && p.min == 0 && p.max == 0
    else 1 <= p.min <= p.max <= MAX_PORT
  }

  datatype PolicyVerdict = PolicyVerdict(chain: string, queue: nat, inputEstQueue: nat, outputEstQueue: nat, drop: bool)

  /** None stands for a nil slice. */
  datatype RuleConfig = RuleConfig(
    logPrefix: string, network: string, ips: Option<seq<AddrOrRange>>,
    container: string, containers: Option<seq<string>>,
    proto: Protocol, srcPorts: seq<RulePorts>, dstPorts: seq<RulePorts>, verdict: PolicyVerdict,
    resolvedContainerID: string, resolvedContainerName: string, sourceProject: string,
    networkID: string, identityVersion: nat,
    skip: bool, containerSet: bool, containersSet: bool, ipsSet: bool)

  function Ips(r: RuleConfig): seq<AddrOrRange>
  {
    if r.ips.Some? then r.ips.value else []
  }

  // ----- validation -----

  datatype ConfigError =
    | ExclusiveDestinations | NoContainers | BlankContainer | DuplicateContainer | EmptyContainer
    | NoIPs | EmptyRule | NetworkMissing | ProtoMissing | DstPortsMissing | ChainVerdict | QueueVerdict

  predicate IsSpace(c: char)
  {
    c == ' ' || '\t' <= c <= '\r' || c == '\U{0085}' || c == '\U{00A0}' || c == '\U{1680}'
    || '\U{2000}' <= c <= '\U{200A}' || c == '\U{2028}' || c == '\U{2029}' || c == '\U{202F}'
    || c == '\U{205F}' || c == '\U{3000}'
  }

  /** strings.TrimSpace(s) == "" */
  predicate IsBlank(s: string)
  {
    forall i :: 0 <= i < |s| ==> IsSpace(s[i])
  }

  predicate HasIPs(r: RuleConfig) { r.ipsSet || r.ips.Some? }
  predicate HasContainer(r: RuleConfig) { r.containerSet || r.container != "" }
  predicate HasContainers(r: RuleConfig) { r.containersSet || r.containers.Some? }

  function ContainerList(r: RuleConfig): seq<string>
  {
    if r.containers.Some? then r.containers.value else []
  }

  /** The scan of a containers list: the first blank or repeated entry fails. */
  function CheckList(names: seq<string>): Option<ConfigError>
  {
    if names == [] then None
    else
      var n := |names| - 1;
      var earlier := CheckList(names[..n]);
      if earlier.Some? then earlier
      else if IsBlank(names[n]) then Some(BlankContainer)
      else if names[n] in names[..n] then Some(DuplicateContainer)
      else None
  }

  function ValidateVerdict(v: PolicyVerdict): Option<ConfigError>
  {
    if v.chain != "" then Some(ChainVerdict)
    else if v.queue != 0 || v.inputEstQueue != 0 || v.outputEstQueue != 0 then Some(QueueVerdict)
    else None
  }

  function B(b: bool): nat { if b then 1 else 0 }

  function ValidateRule(r: RuleConfig): Option<ConfigError>
  {
    if B(HasIPs(r)) + B(HasContainer(r)) + B(HasContainers(r)) > 1 then Some(ExclusiveDestinations)
    else if HasContainers(r) && ContainerList(r) == [] then Some(NoContainers)
    else if HasContainers(r) && CheckList(ContainerList(r)).Some? then CheckList(ContainerList(r))
    else if HasContainer(r) && IsBlank(r.container) then Some(EmptyContainer)
    else if HasIPs(r) && Ips(r) == [] then Some(NoIPs)
    else if Ips(r) == [] && !HasContainer(r) && !HasContainers(r) && r.proto.InvalidProto?
            && r.srcPorts == [] && r.dstPorts == [] then Some(EmptyRule)
    else if r.network == "" && (HasContainer(r) || HasContainers(r)) then Some(NetworkMissing)
    else if r.srcPorts != [] && r.proto.InvalidProto? then Some(ProtoMissing)
    else if r.dstPorts != [] && r.proto.InvalidProto? then Some(ProtoMissing)
    else if !r.proto.InvalidProto? && r.dstPorts == [] then Some(DstPortsMissing)
    else ValidateVerdict(r.verdict)
  }

  // ----- normalisation -----

  /** The destination names one rule asks for ("" where it names none). */
  function DestinationsOfOne(r: RuleConfig): seq<string>
  {
    if r.containers.None? then [r.container] else r.containers.value
  }

  /** Everything of a rule but whom it names. */
  predicate SameTraffic(r: RuleConfig, s: RuleConfig)
  {
    && s.logPrefix == r.logPrefix && s.network == r.network && s.ips == r.ips && s.ipsSet == r.ipsSet
    && s.proto == r.proto && s.srcPorts == r.srcPorts && s.dstPorts == r.dstPorts && s.verdict == r.verdict
    && s.resolvedContainerID == r.resolvedContainerID && s.resolvedContainerName == r.resolvedContainerName
    && s.sourceProject == r.sourceProject && s.networkID == r.networkID && s.identityVersion == r.identityVersion
    && s.skip == r.skip && s.containerSet == r.containerSet
  }

  /** The listed rule for one of the names it gives, or the rule itself. */
  predicate Instance(r: RuleConfig, name: string, s: RuleConfig)
  {
    && SameTraffic(r, s) && s.container == name && s.containers.None?
    && if r.containers.None? then s.containersSet == r.containersSet else !s.containersSet
  }

  /** How many names the first `i` rules give. */
  function NamesBefore(rules: seq<RuleConfig>, i: nat): nat
    requires i <= |rules|
  {
    if i == 0 then 0 else NamesBefore(rules, i - 1) + |DestinationsOfOne(rules[i - 1])|
  }

  /** One rule for each name of each listed rule, in their order. */
  ghost predicate NormalForm(rules: seq<RuleConfig>, out: seq<RuleConfig>)
  {
    && |out| == NamesBefore(rules, |rules|)
    && forall i, k :: 0 <= i < |rules| && 0 <= k < |DestinationsOfOne(rules[i])| ==> InstanceAt(rules, out, i, k)
  }

  predicate InstanceAt(rules: seq<RuleConfig>, out: seq<RuleConfig>, i: nat, k: nat)
    requires i < |rules| && k < |DestinationsOfOne(rules[i])|
  {
    && NamesBefore(rules, i) + k < |out|
    && Instance(rules[i], DestinationsOfOne(rules[i])[k], out[NamesBefore(rules, i) + k])
  }

  lemma {:induction false} NamesOfPrefix(rules: seq<RuleConfig>, n: nat, i: nat)
    requires i <= n <= |rules|
    ensures NamesBefore(rules[..n], i) == NamesBefore(rules, i)
  {
    if i > 0 { NamesOfPrefix(rules, n, i - 1); }
  }

  lemma ExpandedInstances(r: RuleConfig)
    ensures |Expand(r)| == |DestinationsOfOne(r)|
    ensures forall k :: 0 <= k < |Expand(r)| ==> Instance(r, DestinationsOfOne(r)[k], Expand(r)[k])
  {
  }

  lemma {:induction false} FlattenIsNormal(rules: seq<RuleConfig>)
    ensures NormalForm(rules, Flatten(rules))
  {
    if rules != [] {
      var n := |rules| - 1;
      var front, last := rules[..n], rules[n];
      FlattenIsNormal(front);
      ExpandedInstances(last);
      NamesOfPrefix(rules, n, n);
      forall i, k | 0 <= i < |rules| && 0 <= k < |DestinationsOfOne(rules[i])| ensures InstanceAt(rules, Flatten(rules), i, k) {
        if i < n {
          NamesOfPrefix(rules, n, i);
          assert InstanceAt(front, Flatten(front), i, k);
        }
      }
    }
  }

  /** Every rule of a normal form is the listed rule it comes from, under one name. */
  lemma {:induction false} InstanceOfSome(rules: seq<RuleConfig>, out: seq<RuleConfig>, j: nat, n: nat) returns (i: nat, k: nat)
    requires NormalForm(rules, out) && n <= |rules| && j < NamesBefore(rules, n)
    ensures i < n && k < |DestinationsOfOne(rules[i])| && j == NamesBefore(rules, i) + k && j < |out|
    ensures Instance(rules[i], DestinationsOfOne(rules[i])[k], out[j])
  {
    if j >= NamesBefore(rules, n - 1) {
      i, k := n - 1, j - NamesBefore(rules, n - 1);
      assert InstanceAt(rules, out, i, k);
    } else {
      i, k := InstanceOfSome(rules, out, j, n - 1);
    }
  }

  ghost predicate IsInstance(l: RuleConfig, r: RuleConfig)
  {
    exists k :: 0 <= k < |DestinationsOfOne(l)| && Instance(l, DestinationsOfOne(l)[k], r)
  }

  lemma InstancesAreEqual(l: RuleConfig, name: string, r: RuleConfig, x: RuleConfig)
    requires Instance(l, name, r) && Instance(l, name, x)
    ensures r == x
  {
  }

  /** So a normal form holds the instances of the listed rules, and nothing else. */
  lemma NormalFormContents(rules: seq<RuleConfig>, out: seq<RuleConfig>, r: RuleConfig)
    requires NormalForm(rules, out)
    ensures r in out <==> exists l :: l in rules && IsInstance(l, r)
  {
    if r in out {
      var j :| 0 <= j < |out| && out[j] == r;
      var i, k := InstanceOfSome(rules, out, j, |rules|);
      assert rules[i] in rules && IsInstance(rules[i], r);
    }
    if l :| l in rules && IsInstance(l, r) {
      var i :| 0 <= i < |rules| && rules[i] == l;
      var k :| 0 <= k < |DestinationsOfOne(l)| && Instance(l, DestinationsOfOne(l)[k], r);
      assert InstanceAt(rules, out, i, k);
      InstancesAreEqual(l, DestinationsOfOne(l)[k], r, out[NamesBefore(rules, i) + k]);
    }
  }

  /** One rule, with its containers list expanded into singular rules. */
  function Expand(r: RuleConfig): seq<RuleConfig>
  {
    if r.containers.None? then [r] else ExpandNames(r, r.containers.value)
  }

  function ExpandNames(r: RuleConfig, names: seq<string>): (s: seq<RuleConfig>)
    ensures |s| == |names|
  {
    seq(|names|, i requires 0 <= i < |names| =>
      r.(container := names[i], containers := None, containersSet := false))
  }

  function FirstError(rules: seq<RuleConfig>): Option<ConfigError>
  {
    if rules == [] then None
    else if ValidateRule(rules[0]).Some? then ValidateRule(rules[0])
    else FirstError(rules[1..])
  }

  function Flatten(rules: seq<RuleConfig>): seq<RuleConfig>
  {
    if rules == [] then [] else Flatten(rules[..|rules| - 1]) + Expand(rules[|rules| - 1])
  }

  /** The loops of normalizeConfig over the output rules. */
  method NormalizeOutput(rules: seq<RuleConfig>) returns (r: Result<seq<RuleConfig>, ConfigError>)
    ensures r == if FirstError(rules).Some? then Err(FirstError(rules).value) else Ok(Flatten(rules))
    ensures r.Ok? ==> NormalForm(rules, r.value)
  {
    for i := 0 to |rules|
      invariant FirstError(rules) == FirstError(rules[i..])
    {
      var e := ValidateRule(rules[i]);
      if e.Some? { return Err(e.value); }
    }
    var normalized: seq<RuleConfig> := [];
    for i := 0 to |rules|
      invariant normalized == Flatten(rules[..i])
    {
      assert rules[..i + 1][..i] == rules[..i];
      var rule := rules[i];
      if rule.containers.None? {
        normalized := normalized + [rule];
      } else {
        ghost var before := normalized;
        var names := rule.containers.value;
        for k := 0 to |names|
          invariant normalized == before + ExpandNames(rule, names)[..k]
        {
          var expanded := rule.(container := names[k], containers := None, containersSet := false);
          normalized := normalized + [expanded];
        }
        assert ExpandNames(rule, names)[..|names|] == ExpandNames(rule, names);
      }
    }
    assert rules[..|rules|] == rules;
    FlattenIsNormal(rules);
    return Ok(normalized);
  }

  /** normalizeConfig: the verdicts of the published ports are validated first, for
      localhost and then for the outside. */
  method NormalizeConfig(localhost: PolicyVerdict, external: PolicyVerdict, rules: seq<RuleConfig>)
    returns (r: Result<seq<RuleConfig>, ConfigError>)
    ensures r == if ValidateVerdict(localhost).Some? then Err(ValidateVerdict(localhost).value)
                 else if ValidateVerdict(external).Some? then Err(ValidateVerdict(external).value)
                 else if FirstError(rules).Some? then Err(FirstError(rules).value)
                 else Ok(Flatten(rules))
    ensures r.Ok? ==> NormalForm(rules, r.value)
  {
    var e := ValidateVerdict(localhost);
    if e.None? { e := ValidateVerdict(external); }
    if e.Some? { return Err(e.value); }
    r := NormalizeOutput(rules);
  }

  /** The destination names a rule list asks for, in order. */
  function Destinations(rules: seq<RuleConfig>): seq<string>
  {
    Concat(Map(DestinationsOfOne, rules))
  }

  lemma DestinationsAppend(a: seq<RuleConfig>, b: seq<RuleConfig>)
    ensures Destinations(a + b) == Destinations(a) + Destinations(b)
  {
    MapAppend(DestinationsOfOne, a, b);
    ConcatAppend(Map(DestinationsOfOne, a), Map(DestinationsOfOne, b));
  }

  lemma DestinationsOf(r: RuleConfig)
    ensures Destinations([r]) == DestinationsOfOne(r)
  {
    assert Map(DestinationsOfOne, [r]) == [DestinationsOfOne(r)];
    var one := [DestinationsOfOne(r)];
    assert one[..0] == [] && Concat(one) == [] + DestinationsOfOne(r);
  }

  lemma {:induction false} DestinationsOfSingular(s: seq<RuleConfig>)
    requires forall i :: 0 <= i < |s| ==> s[i].containers.None?
    ensures |Destinations(s)| == |s|
    ensures forall i :: 0 <= i < |s| ==> Destinations(s)[i] == s[i].container
  {
    if s != [] {
      var n := |s| - 1;
      DestinationsOfSingular(s[..n]);
      DestinationsAppend(s[..n], [s[n]]);
      DestinationsOf(s[n]);
      assert s == s[..n] + [s[n]];
    }
  }

  lemma ExpansionKeepsDestinations(r: RuleConfig)
    ensures Destinations(Expand(r)) == DestinationsOfOne(r)
    ensures forall i :: 0 <= i < |Expand(r)| ==> Expand(r)[i].containers.None?
  {
    DestinationsOfSingular(Expand(r));
    assert |Expand(r)| == |DestinationsOfOne(r)|;
  }

  lemma {:induction false} FlattenIsSingular(rules: seq<RuleConfig>)
    ensures forall i :: 0 <= i < |Flatten(rules)| ==> Flatten(rules)[i].containers.None?
  {
    if rules != [] {
      FlattenIsSingular(rules[..|rules| - 1]);
      ExpansionKeepsDestinations(rules[|rules| - 1]);
    }
  }

  lemma {:induction false} FlattenKeepsDestinations(rules: seq<RuleConfig>)
    ensures Destinations(Flatten(rules)) == Destinations(rules)
  {
    if rules != [] {
      var n := |rules| - 1;
      var front, last := rules[..n], rules[n];
      FlattenKeepsDestinations(front);
      DestinationsAppend(Flatten(front), Expand(last));
      ExpansionKeepsDestinations(last);
      DestinationsAppend(front, [last]);
      DestinationsOf(last);
      assert rules == front + [last];
    }
  }

  /** Expansion keeps the ordered flattening of the container lists, and every
      result carries a single name. */
  lemma NormalizationKeepsDestinations(rules: seq<RuleConfig>)
    ensures Destinations(Flatten(rules)) == Destinations(rules)
    ensures forall i :: 0 <= i < |Flatten(rules)| ==> Flatten(rules)[i].containers.None?
  {
    FlattenKeepsDestinations(rules);
    FlattenIsSingular(rules);
  }

  lemma {:induction false} CheckedNames(names: seq<string>)
    requires CheckList(names).None?
    ensures forall i :: 0 <= i < |names| ==> !IsBlank(names[i])
    ensures forall i, j :: 0 <= i < j < |names| ==> names[i] != names[j]
  {
    if names != [] { CheckedNames(names[..|names| - 1]); }
  }

  /** What validation asks of a rule: one kind of destination at most, given
      properly; something it says; a network for containers; a protocol for ports
      and ports for a protocol; and none of the unsupported verdicts. */
  predicate WellFormedRule(r: RuleConfig)
  {
    && !(HasIPs(r) && HasContainer(r)) && !(HasIPs(r) && HasContainers(r)) && !(HasContainer(r) && HasContainers(r))
    && (HasContainers(r) ==> ContainerList(r) != [] && GoodNames(ContainerList(r)))
    && (HasContainer(r) ==> !IsBlank(r.container)) && (HasIPs(r) ==> Ips(r) != [])
    && (HasIPs(r) || HasContainer(r) || HasContainers(r) || !r.proto.InvalidProto?)
    && (HasContainer(r) || HasContainers(r) ==> r.network != "")
    && (r.srcPorts != [] || r.dstPorts != [] ==> !r.proto.InvalidProto?)
    && (!r.proto.InvalidProto? ==> r.dstPorts != [])
    && r.verdict.chain == "" && r.verdict.queue == r.verdict.inputEstQueue == r.verdict.outputEstQueue == 0
  }

  predicate GoodNames(names: seq<string>)
  {
    (forall i :: 0 <= i < |names| ==> !IsBlank(names[i])) && forall i, j :: 0 <= i < j < |names| ==> names[i] != names[j]
  }

  lemma ValidRulesExactly(r: RuleConfig)
    ensures ValidateRule(r).None? <==> WellFormedRule(r)
  {
    var names := ContainerList(r);
    if CheckList(names).None? {
      CheckedNames(names);
    } else if GoodNames(names) {
      GoodNamesPass(names);
    }
  }

  lemma {:induction false} GoodNamesPass(names: seq<string>)
    requires GoodNames(names)
    ensures CheckList(names).None?
  {
    if names != [] { GoodNamesPass(names[..|names| - 1]); }
  }

  lemma ExpandedRulesValid(r: RuleConfig)
    requires ValidateRule(r).None?
    ensures forall i :: 0 <= i < |Expand(r)| ==> ValidateRule(Expand(r)[i]).None?
  {
    if r.containers.Some? {
      CheckedNames(r.containers.value);
      forall i | 0 <= i < |Expand(r)| ensures ValidateRule(Expand(r)[i]).None? {
        assert !IsBlank(r.containers.value[i]);
        assert r.containers.value[i] != "";
      }
    }
  }

  lemma {:induction false} FlattenedRulesValid(rules: seq<RuleConfig>)
    requires forall i :: 0 <= i < |rules| ==> ValidateRule(rules[i]).None?
    ensures forall i :: 0 <= i < |Flatten(rules)| ==> ValidateRule(Flatten(rules)[i]).None?
  {
    if rules != [] {
      FlattenedRulesValid(rules[..|rules| - 1]);
      ExpandedRulesValid(rules[|rules| - 1]);
    }
  }

  lemma {:induction false} NoErrorMeansAllValid(rules: seq<RuleConfig>)
    ensures FirstError(rules).None? <==> forall i :: 0 <= i < |rules| ==> ValidateRule(rules[i]).None?
  {
    if rules != [] {
      NoErrorMeansAllValid(rules[1..]);
      assert forall i :: 0 < i < |rules| ==> rules[i] == rules[1..][i - 1];
    }
  }

  lemma {:induction false} FlattenOfSingular(s: seq<RuleConfig>)
    requires forall i :: 0 <= i < |s| ==> s[i].containers.None?
    ensures Flatten(s) == s
  {
    if s != [] {
      FlattenOfSingular(s[..|s| - 1]);
      assert s == s[..|s| - 1] + [s[|s| - 1]];
    }
  }

  /** A normalised list validates again and normalises to itself. */
  lemma NormalizationIsIdempotent(rules: seq<RuleConfig>)
    requires FirstError(rules).None?
    ensures FirstError(Flatten(rules)).None?
    ensures Flatten(Flatten(rules)) == Flatten(rules)
  {
    NoErrorMeansAllValid(rules);
    FlattenedRulesValid(rules);
    NoErrorMeansAllValid(Flatten(rules));
    NormalizationKeepsDestinations(rules);
    FlattenOfSingular(Flatten(rules));
  }

  // ----- persisted waiting rules -----

  function DropEmpty<T>(s: Option<seq<T>>): Option<seq<T>>
  {
    if s.Some? && s.value == [] then None else s
  }

  /** The row written for a waiting rule and read back: unexported fields are not
      encoded, and an empty slice comes back nil. */
  function Persisted(r: RuleConfig): RuleConfig
  {
    r.(skip := false, containerSet := false, containersSet := false, ipsSet := false,
       ips := DropEmpty(r.ips), containers := DropEmpty(r.containers),
       verdict := r.verdict.(drop := false))
  }

  /** Nothing is lost that a rule is generated from, or that tells whom it is for. */
  predicate ReadBackAs(r: RuleConfig, s: RuleConfig)
  {
    && s.network == r.network && Ips(s) == Ips(r) && s.container == r.container && s.containers == r.containers == None
    && s.proto == r.proto && s.srcPorts == r.srcPorts && s.dstPorts == r.dstPorts && s.logPrefix == r.logPrefix
    && (!r.verdict.drop ==> s.verdict == r.verdict)
    && s.resolvedContainerID == r.resolvedContainerID && s.resolvedContainerName == r.resolvedContainerName
    && s.sourceProject == r.sourceProject && s.networkID == r.networkID && s.identityVersion == r.identityVersion
  }

  lemma SingularSurvivesPersistence(r: RuleConfig)
    requires ValidateRule(r).None? && r.containers.None?
    ensures ValidateRule(Persisted(r)).None? && ReadBackAs(r, Persisted(r))
  {
  }

  /** Losing the presence flags does not invalidate a normalised rule, and loses
      nothing a rule is generated from. */
  lemma NormalizedRulesSurvivePersistence(rules: seq<RuleConfig>, i: nat)
    requires FirstError(rules).None? && i < |Flatten(rules)|
    ensures var r := Flatten(rules)[i];
            ValidateRule(Persisted(r)).None? && ReadBackAs(r, Persisted(r))
  {
    NoErrorMeansAllValid(rules);
    FlattenedRulesValid(rules);
    NormalizationKeepsDestinations(rules);
    SingularSurvivesPersistence(Flatten(rules)[i]);
  }

  // ----- port text -----

  predicate IsDigit(c: char) { '0' <= c <= '9' }

  predicate AllDigits(s: string)
  {
    forall i :: 0 <= i < |s| ==> IsDigit(s[i])
  }

  function DigitVal(c: char): nat
    requires IsDigit(c)
  {
    c as int - '0' as int
  }

  function NumVal(s: string): nat
    requires AllDigits(s)
  {
    if s == [] then 0 else NumVal(s[..|s| - 1]) * 10 + DigitVal(s[|s| - 1])
  }

  /** strconv.Itoa of a natural number. */
  function Itoa(n: nat): string
  {
    if n < 10 then [('0' as int + n) as char] else Itoa(n / 10) + [('0' as int + n % 10) as char]
  }

  lemma {:induction false} ItoaRoundTrip(n: nat)
    ensures Itoa(n) != "" && AllDigits(Itoa(n)) && NumVal(Itoa(n)) == n
  {
    if n < 10 {
      assert Itoa(n)[..0] == "";
    } else {
      ItoaRoundTrip(n / 10);
      assert Itoa(n)[..|Itoa(n)| - 1] == Itoa(n / 10);
    }
  }

  /** strconv.ParseUint(s, 10, 16) */
  function ParseUint16(s: string): Option<nat>
  {
    if s == "" || !AllDigits(s) || NumVal(s) > MAX_PORT then None else Some(NumVal(s))
  }

  function MarshalPorts(p: RulePorts): string
  {
    if p.single != 0 then Itoa(p.single) else Itoa(p.min) + "-" + Itoa(p.max)
  }

  /** The accepted notation: a port number, or two of them in order around a dash. */
  ghost predicate Denotes(text: string, p: RulePorts)
  {
    || (ParseUint16(text) == Some(p.single) && p.single != 0 && p.min == 0 && p.max == 0)
    || (p.single == 0 && 1 <= p.min <= p.max && exists k :: Splits(text, k, p.min, p.max))
  }

  predicate Splits(text: string, k: int, lo: nat, hi: nat)
  {
    && 0 <= k < |text| && text[k] == '-'
    && ParseUint16(text[..k]) == Some(lo) && ParseUint16(text[k + 1..]) == Some(hi)
  }

  datatype PortError =
    | EmptyText | BadCharacter | SecondDash | LeadingDash | TrailingDash
    | BadNumber | OutOfRange | Reversed

  /** rulePorts.UnmarshalText: a scan for characters and the dash, then the numbers. */
  method UnmarshalPorts(text: string) returns (r: Result<RulePorts, PortError>)
    ensures r.Ok? ==> Denotes(text, r.value) && ValidPorts(r.value)
    ensures r.Err? ==> forall p: RulePorts :: !Denotes(text, p)
  {
    if |text| == 0 { return Err(EmptyText); }
    var dash := -1;
    for i := 0 to |text|
      invariant -1 <= dash < i
      invariant dash >= 0 ==> text[dash] == '-' && 0 < dash < |text| - 1
      invariant forall k :: 0 <= k < i && k != dash ==> IsDigit(text[k])
    {
      var c := text[i];
      if !IsDigit(c) && c != '-' {
        NotANotation(text, i);
        return Err(BadCharacter);
      }
      if c == '-' {
        if dash >= 0 {
          TwoDashes(text, dash, i);
          return Err(SecondDash);
        }
        if i == 0 { EdgeDash(text, i); return Err(LeadingDash); }
        if i == |text| - 1 { EdgeDash(text, i); return Err(TrailingDash); }
        dash := i;
      }
    }
    if dash >= 0 {
      r := ParseInterval(text, dash);
    } else {
      var port := ParseUint16(text);
      NumeralHasNoSplit(text);
      if port.None? { return Err(BadNumber); }
      if port.value == 0 { return Err(OutOfRange); }
      return Ok(RulePorts(port.value, 0, 0));
    }
  }

  /** The two numbers around the only dash. */
  method ParseInterval(text: string, dash: nat) returns (r: Result<RulePorts, PortError>)
    requires dash < |text| && text[dash] == '-'
    requires forall k :: 0 <= k < |text| && k != dash ==> IsDigit(text[k])
    ensures r.Ok? ==> Denotes(text, r.value) && ValidPorts(r.value)
    ensures r.Err? ==> forall p: RulePorts :: !Denotes(text, p)
  {
    OnlySplit(text, dash);
    var min := ParseUint16(text[..dash]);
    if min.None? { return Err(BadNumber); }
    var max := ParseUint16(text[dash + 1..]);
    if max.None? { return Err(BadNumber); }
    if min.value == 0 || max.value == 0 { return Err(OutOfRange); }
    if min.value > max.value { return Err(Reversed); }
    assert Splits(text, dash, min.value, max.value);
    return Ok(RulePorts(0, min.value, max.value));
  }

  lemma OnlySplit(text: string, dash: nat)
    requires dash < |text| && text[dash] == '-'
    requires forall k :: 0 <= k < |text| && k != dash ==> IsDigit(text[k])
    ensures !AllDigits(text) && forall k, lo, hi :: Splits(text, k, lo, hi) ==> k == dash
  {
    assert !IsDigit(text[dash]);
  }

  lemma NotANotation(text: string, i: nat)
    requires i < |text| && !IsDigit(text[i]) && text[i] != '-'
    ensures forall p: RulePorts :: !Denotes(text, p)
  {
    forall k, lo, hi ensures !Splits(text, k, lo, hi) {
      if 0 <= k < |text| && text[k] == '-' {
        if i < k { assert text[..k][i] == text[i]; } else { assert text[k + 1..][i - k - 1] == text[i]; }
      }
    }
  }

  lemma TwoDashes(text: string, a: nat, b: nat)
    requires a < b < |text| && text[a] == text[b] == '-'
    ensures forall p: RulePorts :: !Denotes(text, p)
  {
    assert !IsDigit(text[a]);
    forall k, lo, hi ensures !Splits(text, k, lo, hi) {
      if 0 <= k < |text| && text[k] == '-' {
        if a < k { assert text[..k][a] == '-'; } else { assert text[k + 1..][b - k - 1] == '-'; }
      }
    }
  }

  lemma EdgeDash(text: string, i: nat)
    requires i < |text| && text[i] == '-' && (i == 0 || i == |text| - 1)
    ensures forall p: RulePorts :: !Denotes(text, p)
  {
    assert !IsDigit(text[i]);
    forall k, lo, hi ensures !Splits(text, k, lo, hi) {
      if 0 <= k < |text| && text[k] == '-' {
        if i < k { assert text[..k][i] == '-'; }
        else if i > k { assert text[k + 1..][i - k - 1] == '-'; }
      }
    }
  }

  lemma NumeralHasNoSplit(text: string)
    requires AllDigits(text)
    ensures forall k, lo, hi :: !Splits(text, k, lo, hi)
  {
    forall k, lo, hi ensures !Splits(text, k, lo, hi) {
      if 0 <= k < |text| { assert IsDigit(text[k]); }
    }
  }

  /** A text denotes at most one value. */
  lemma DenotesUnique(text: string, p: RulePorts, q: RulePorts)
    requires Denotes(text, p) && Denotes(text, q)
    ensures p == q
  {
    if AllDigits(text) {
      NumeralHasNoSplit(text);
    } else {
      var k :| Splits(text, k, p.min, p.max);
      var j :| Splits(text, j, q.min, q.max);
      if j != k { TwoDashes(text, if j < k then j else k, if j < k then k else j); }
    }
  }

  /** Printing a valid value and reading the text back gives the value. */
  lemma PortTextRoundTrip(p: RulePorts)
    requires ValidPorts(p)
    ensures Denotes(MarshalPorts(p), p)
    ensures forall q :: Denotes(MarshalPorts(p), q) ==> q == p
  {
    if p.single != 0 {
      ItoaRoundTrip(p.single);
    } else {
      ItoaRoundTrip(p.min);
      ItoaRoundTrip(p.max);
      var text, k := MarshalPorts(p), |Itoa(p.min)|;
      assert text[..k] == Itoa(p.min) && text[k + 1..] == Itoa(p.max) && text[k] == '-';
      assert Splits(text, k, p.min, p.max);
    }
    forall q | Denotes(MarshalPorts(p), q) ensures q == p { DenotesUnique(MarshalPorts(p), q, p); }
  }
}
