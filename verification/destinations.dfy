/** Which containers an edge can join: from the source's side, where a rule finds its
    destination, and from the destination's side, where it takes up a stored rule. */
module Destinations {
  import opened Compiler
  import opened Config
  import opened Wrappers
  import opened Scope
  import opened Store
  import opened Generate
  import opened Outputs

  // ----- from the source's side -----

  /** The container disappeared or stopped after it was listed. */
  predicate Vanished(now: Snapshot, id: string)
  {
    id !in now.conts || now.conts[id].stopped
  }

  /** It is there, enabled and validly scoped. */
  predicate Acceptable(now: Snapshot, id: string)
  {
    && id in now.conts && !now.conts[id].stopped
    && var c := now.conts[id];
       c.hasConfig && c.enabled == Some(true) && c.networks.Some? && ValidScope(c.scopeLabel, c.project, c.networks.value)
  }

  /** It manages, under the name `network`, the very network of the source's endpoint. */
  predicate Joined(now: Snapshot, id: string, network: string, srcName: string, src: Option<Endpoint>)
  {
    && Acceptable(now, id) && src.Some?
    && var m := Managed(now.conts[id]);
       var n := FindNetwork(network, now.conts[id].project, m);
       n.Some? && m[n.value].Some? && OneNetwork(srcName, src.value, n.value, m[n.value].value)
  }

  lemma ManagedAreAttached(c: Inspect)
    requires c.networks.Some?
    ensures forall n :: n in Managed(c) ==> n in c.networks.value && Managed(c)[n] == c.networks.value[n]
  {
  }

  lemma LooksExactly(now: Snapshot, id: string, network: string, srcName: string, src: Option<Endpoint>)
    ensures var l := LookAt(now.conts, id, network, srcName, src);
            && (l.Gone? <==> Vanished(now, id))
            && (l.Broken? <==> !Vanished(now, id) && !Acceptable(now, id))
            && (l.Viable? <==> Joined(now, id, network, srcName, src))
  {
    if id in now.conts && now.conts[id].networks.Some? { ManagedAreAttached(now.conts[id]); }
  }

  function LooksOf(now: Snapshot, matches: seq<Summary>, network: string, srcName: string, src: Option<Endpoint>): (r: seq<Look>)
    ensures |r| == |matches| && forall i :: 0 <= i < |r| ==> r[i] == LookAt(now.conts, matches[i].id, network, srcName, src)
  {
    seq(|matches|, i requires 0 <= i < |matches| => LookAt(now.conts, matches[i].id, network, srcName, src))
  }

  function TallyOf(looks: seq<Look>): Tally
  {
    if looks == [] then Tally(false, 0, 0, []) else Count(TallyOf(looks[..|looks| - 1]), looks[|looks| - 1])
  }

  lemma {:induction false} TalliedLooks(now: Snapshot, matches: seq<Summary>, network: string, srcName: string, src: Option<Endpoint>)
    ensures Tallied(now.conts, matches, network, srcName, src) == TallyOf(LooksOf(now, matches, network, srcName, src))
  {
    if matches != [] {
      var n := |matches| - 1;
      TalliedLooks(now, matches[..n], network, srcName, src);
      assert LooksOf(now, matches, network, srcName, src)[..n] == LooksOf(now, matches[..n], network, srcName, src);
    }
  }

  /** What a tally says about the looks it counts. */
  lemma {:induction false} TallyExactly(looks: seq<Look>)
    ensures var t := TallyOf(looks);
            && (t.broken <==> exists i :: 0 <= i < |looks| && looks[i].Broken?)
            && (!t.broken ==> (t.present == 0 <==> forall i :: 0 <= i < |looks| ==> looks[i].Gone?))
            && (t.viable == [] <==> forall i :: 0 <= i < |looks| ==> !looks[i].Viable?)
            && (|t.viable| <= 1 <==> forall i, j :: 0 <= i < j < |looks| ==> !(looks[i].Viable? && looks[j].Viable?))
            && |t.viable| <= t.present
  {
    if looks != [] {
      var n := |looks| - 1;
      TallyExactly(looks[..n]);
      assert forall i :: 0 <= i < n ==> looks[..n][i] == looks[i];
    }
  }

  lemma DecidesExactly(looks: seq<Look>)
    ensures var d := Decide(TallyOf(looks));
            && (d.Deferred? <==> forall i :: 0 <= i < |looks| ==> looks[i].Gone?)
            && (d.Chosen? <==> (forall i :: 0 <= i < |looks| ==> !looks[i].Broken?) && exists i :: 0 <= i < |looks| && OnlyViable(looks, i))
  {
    TallyExactly(looks);
    if i :| 0 <= i < |looks| && looks[i].Viable? {
      if Decide(TallyOf(looks)).Chosen? { assert OnlyViable(looks, i); }
    }
  }

  predicate OnlyViable(looks: seq<Look>, i: nat)
    requires i < |looks|
  {
    looks[i].Viable? && forall j :: 0 <= j < |looks| && j != i ==> !looks[j].Viable?
  }

  lemma LooksMeanWhatTheySay(now: Snapshot, matches: seq<Summary>, network: string, srcName: string, src: Option<Endpoint>)
    ensures var looks := LooksOf(now, matches, network, srcName, src);
            && (forall i :: 0 <= i < |matches| ==> (looks[i].Gone? <==> Vanished(now, matches[i].id)))
            && (forall i :: 0 <= i < |matches| ==> (looks[i].Broken? <==> !Vanished(now, matches[i].id) && !Acceptable(now, matches[i].id)))
            && forall i :: 0 <= i < |matches| ==> (OnlyViable(looks, i) <==> OnlyJoined(now, matches, i, network, srcName, src))
  {
    var looks := LooksOf(now, matches, network, srcName, src);
    forall i | 0 <= i < |matches|
      ensures looks[i].Gone? <==> Vanished(now, matches[i].id)
      ensures looks[i].Broken? <==> !Vanished(now, matches[i].id) && !Acceptable(now, matches[i].id)
      ensures looks[i].Viable? <==> Joined(now, matches[i].id, network, srcName, src)
    {
      LooksExactly(now, matches[i].id, network, srcName, src);
    }
  }

  /** The three outcomes, exactly. A rule waits if every container it can mean has
      gone; it resolves if those that have not are all eligible, and one of them, and
      no other, is joined to the source's network; anything else is refused. */
  lemma DestinationExactly(now: Snapshot, self: Self, r: RuleConfig)
    ensures var matches, src, d := BestMatches(now.listed, r.container, self.project), SourceEndpoint(self, r), DestinationOf(now, self, r);
            && (d.Deferred? <==> forall i :: 0 <= i < |matches| ==> Vanished(now, matches[i].id))
            && (d.Chosen? <==>
                  && (forall i :: 0 <= i < |matches| ==> Vanished(now, matches[i].id) || Acceptable(now, matches[i].id))
                  && exists i :: 0 <= i < |matches| && OnlyJoined(now, matches, i, r.network, src.0, src.1))
  {
    var matches, src := BestMatches(now.listed, r.container, self.project), SourceEndpoint(self, r);
    var looks := LooksOf(now, matches, r.network, src.0, src.1);
    TalliedLooks(now, matches, r.network, src.0, src.1);
    DecidesExactly(looks);
    LooksMeanWhatTheySay(now, matches, r.network, src.0, src.1);
  }

  predicate OnlyJoined(now: Snapshot, matches: seq<Summary>, i: nat, network: string, srcName: string, src: Option<Endpoint>)
    requires i < |matches|
  {
    && Joined(now, matches[i].id, network, srcName, src)
    && forall j :: 0 <= j < |matches| && j != i ==> !Joined(now, matches[j].id, network, srcName, src)
  }

  // ----- from the destination's side -----

  /** The row is for this container: resolved to it, or still open and from no other
      project; and it was written with an identity at all. */
  predicate Concerns(self: Self, w: Waiting)
  {
    var r := w.rule;
    && !(r.identityVersion == 0 && r.resolvedContainerID == "" && r.sourceProject == "" && r.networkID == "")
    && if r.resolvedContainerID != "" then r.resolvedContainerID == self.id else r.sourceProject == "" || r.sourceProject == self.project
  }

  /** Both containers manage the network with IPv4 addresses, and it is the one the
      source meant when it wrote the row. */
  predicate OnOneNetwork(now: Snapshot, self: Self, w: Waiting)
  {
    && w.src in now.conts && Sound(now.conts[w.src])
    && var c := now.conts[w.src];
       var src, dst := FindNetwork(w.rule.network, c.project, Managed(c)), FindNetwork(w.rule.network, self.project, self.networks);
       && src.Some? && HasV4(Managed(c), src.value) && dst.Some? && HasV4(self.networks, dst.value)
       && OneNetwork(src.value, Managed(c)[src.value].value, dst.value, self.networks[dst.value].value)
       && (w.rule.networkID == "" || self.networks[dst.value].value.networkID in {"", w.rule.networkID})
  }

  /** A stored row becomes an edge exactly if it is readable, concerns the container,
      and both are connected. */
  lemma TakenUpExactly(now: Snapshot, self: Self, w: Waiting)
    ensures WaitOn(now, self, w).Edge? <==>
              ValidParts(w.rule) && WellFormedRule(w.rule) && Concerns(self, w) && OnOneNetwork(now, self, w)
  {
    ValidRulesExactly(w.rule);
  }

  /** A row that names this container and no other is never passed over in silence. */
  lemma ResolvedRowIsNotSkipped(now: Snapshot, self: Self, w: Waiting)
    requires w.rule.resolvedContainerID == self.id != ""
    ensures !WaitOn(now, self, w).Skip?
  {
  }

  /** A row for another container, or from another project, never makes a start fail. */
  lemma ForeignRowIsSkipped(now: Snapshot, self: Self, w: Waiting)
    requires ValidParts(w.rule) && WellFormedRule(w.rule) && !Concerns(self, w)
    ensures WaitOn(now, self, w).Skip?
  {
    ValidRulesExactly(w.rule);
  }
}
