/** Creating and deleting the policy of one container: the enforcement floor, the
    address map and metadata, the authoritative policy, and the rollbacks. */
module Manager {
  import opened Nft
  import opened Names
  import opened Chains
  import opened Compiler
  import opened Wrappers
  import opened Policy
  import opened Invariants
  import opened Kernel
  import opened Engine
  import opened Mappings
  import opened Deletion
  import opened Base
  import opened Runs
  import opened Scope
  import opened Store
  import opened Generate
  import opened Outputs
  import opened Build

  /** The inspected container whose policy is created. */
  datatype Container = Container(id: string, name: string, hasConfig: bool, service: string, project: string,
                                 scopeLabel: Option<string>, networks: Option<Networks>, policy: PolicyLabel)

  /** Why, if it fails, a creation is rolled back the way it is. */
  datatype Interruption = Live | DeletedMeanwhile | ShuttingDown

  /** How a creation ends. Rejected: before anything was committed. Abandoned: it
      failed while shutting down, and is not rolled back. The others failed after
      the floor was installed and were rolled back, or could not be. */
  datatype Ending = Rejected | Applied | Abandoned | Quarantined | QuarantineFailed | Removed | RemovalFailed

  ghost predicate AllGood(log: seq<Fw>)
  {
    forall i {:trigger Good(log[i])} :: 0 <= i < |log| ==> Good(log[i])
  }

  /** In every new state of `log` but the one at `except`, the chain of `id` is shut. */
  ghost predicate Closed(before: seq<Fw>, log: seq<Fw>, id: string, except: int)
  {
    forall i {:trigger Shut(log[i], id)} :: |before| <= i < |log| && i != except ==> Shut(log[i], id)
  }

  ghost predicate OneDropOnly(fw: Fw, id: string)
  {
    ChainName(id) in fw.chains && fw.chains[ChainName(id)] == [DropRule(id)] && NoForeignRules(fw, id)
  }

  ghost predicate Absent(fw: Fw, id: string)
  {
    && ChainName(id) !in fw.chains && NoForeignRules(fw, id)
    && forall k :: k in Mapping(fw) ==> Mapping(fw)[k].chain != ChainName(id)
  }

  ghost predicate AllMapped(fw: Fw, id: string, keys: set<Key>)
  {
    forall k :: k in keys ==> k in Mapping(fw) && Mapping(fw)[k] == GotoChain(id)
  }

  /** Where an installation that came this far from `f0` is. */
  function Reached(f0: Fw, id: string, keys: set<Key>, mapped: bool, authoritative: bool, rds: seq<RuleDetails>): Fw
  {
    if authoritative then PolicyReplaced(Remapped(f0, id, keys), id, Compiled(rds)) else if mapped then Remapped(f0, id, keys) else f0
  }

  /** How far an installation came from `f0`: the committed states are those of the
      map, if it had to be written, and of the authoritative policy. */
  ghost predicate Progress(f0: Fw, log0: seq<Fw>, f1: Fw, log1: seq<Fw>, id: string, keys: set<Key>,
                           mapped: bool, authoritative: bool, rds: seq<RuleDetails>)
  {
    && f1 == Reached(f0, id, keys, mapped, authoritative, rds)
    && (authoritative ==> mapped && Enabled(Remapped(f0, id, keys), Replace(id, rds)))
    && var last := if authoritative then [f1] else [];
       || (log1 == log0 + last && (mapped ==> Remapped(f0, id, keys) == f0))
       || (log1 == log0 + [Remapped(f0, id, keys)] + last && mapped)
  }

  /** Policies, networks and IDs as the parsers and Docker deliver them. */
  ghost predicate Proper(c: Container)
  {
    && ValidID(c.id) && ParsedPolicy(c.policy)
    && (c.policy.Rules? && c.networks.Some? ==>
          c.policy.published.attached == c.networks.value && c.policy.published.explicit == c.scopeLabel.Some?)
  }

  function PolicyKeys(c: Container): set<Key>
  {
    if c.networks.Some? then DispatchedKeys(c.scopeLabel, c.project, c.networks.value) else {}
  }

  function SelfOf(c: Container): Self
  {
    Self(c.id, StripName(c.name), c.service, c.project,
         if c.networks.Some? then PolicyNetworks(c.scopeLabel, c.project, c.networks.value) else map[])
  }

  /** A successful creation, from the states before to the states after. */
  ghost predicate Created(now: Snapshot, c: Container, quarantineFirst: bool, fw: Fw, t: Tables, fw': Fw, t': Tables)
  {
    && c.networks.Some? && ValidScope(c.scopeLabel, c.project, c.networks.value)
    && var self, keys := SelfOf(c), PolicyKeys(c);
       var recorded := MetadataReplaced(t, c.id, self.name, c.service, keys);
       exists rds, est, after ::
         && Built(now, recorded, self, Collected(self.networks), c.policy, rds, est, after)
         && t' == EstAdded(after, c.id, est)
         && fw' == PolicyReplaced(Remapped(FloorInstalled(fw, c.id, quarantineFirst), c.id, keys), c.id, Compiled(rds))
  }

  /** What a creation that installed the floor leaves behind: a quarantine leaves
      one drop, to which every address still leads if the map was written; a
      removal leaves nothing; anything else leaves a chain. */
  ghost predicate LeavesBehind(r: Ending, mapped: bool, fw: Fw, id: string, keys: set<Key>)
  {
    && (r.Quarantined? ==> OneDropOnly(fw, id) && (mapped ==> AllMapped(fw, id, keys)))
    && (if r.Removed? then Absent(fw, id) else IsContainerChain(fw, id))
  }

  /** Where the rollback leads that ended like this. */
  function Undone(f1: Fw, id: string, r: Ending): Fw
  {
    if r.Quarantined? then PolicyReplaced(f1, id, []) else if r.Removed? then Deleted(f1, id) else f1
  }

  predicate RolledBackAs(r: Ending, interruption: Interruption)
  {
    match interruption
    case Live => r.Quarantined? || r.QuarantineFailed?
    case DeletedMeanwhile => r.Removed? || r.RemovalFailed?
    case ShuttingDown => r.Abandoned?
  }

  /** What a rollback makes of the tables: a quarantine at most forgets the policy
      rows of the container, and only a removal erases the container. */
  predicate RolledBackRows(r: Ending, erased: bool, id: string, t: Tables, t': Tables)
  {
    match r
    case Quarantined => t' == t || t' == PolicyReset(t, id)
    case QuarantineFailed => t' == t || t' == PolicyReset(t, id)
    case Removed => t' == if erased then ContainerDeleted(t, id) else t
    case _ => t' == t
  }

  /** The tables once the metadata were recorded, or not. */
  function RecordedIf(recorded: bool, c: Container, t: Tables): Tables
  {
    if recorded then MetadataReplaced(t, c.id, SelfOf(c).name, c.service, PolicyKeys(c)) else t
  }

  /** What a creation makes of the tables, however it ends; the policy rows of a
      successful one are described by Created. */
  predicate CreationRows(r: Ending, recorded: bool, erased: bool, c: Container, t: Tables, t': Tables)
  {
    var t1 := RecordedIf(recorded, c, t);
    if r.Applied? then recorded && t'.containers == t1.containers && t'.addrs == t1.addrs && t'.aliases == t1.aliases
    else RolledBackRows(r, erased, c.id, t1, t')
  }

  /** The tables before any rollback. */
  predicate AttemptRows(ok: bool, recorded: bool, c: Container, t: Tables, t1: Tables)
  {
    if ok then CreationRows(Applied, recorded, false, c, t, t1) else t1 == RecordedIf(recorded, c, t)
  }

  /** The kernel takes the policy: every chain it puts rules into exists. */
  ghost predicate Installable(now: Snapshot, before: Tables, self: Self, addrs: map<string, Key>, p: PolicyLabel, fw: Fw)
  {
    exists rds, est, after :: Built(now, before, self, addrs, p, rds, est, after) && Replaceable(fw, self.id, Compiled(rds))
  }

  /** The container can be managed at all, and its chain is not taken. */
  ghost predicate Manageable(c: Container, fw: Fw)
  {
    c.networks.Some? && c.networks.value.Keys != {HOST} && c.hasConfig && FloorPossible(fw, c.id)
  }

  /** When a creation succeeds if nothing fails. */
  ghost predicate Creatable(now: Snapshot, c: Container, quarantineFirst: bool, fw: Fw, t: Tables)
  {
    && Manageable(c, fw) && ValidScope(c.scopeLabel, c.project, c.networks.value)
    && var f0, self, keys := FloorInstalled(fw, c.id, quarantineFirst), SelfOf(c), PolicyKeys(c);
       && Remappable(f0, c.id, keys) && NameFree(t, c.id, self.name)
       && Installable(now, MetadataReplaced(t, c.id, self.name, c.service, keys), self, Collected(self.networks), c.policy,
                      Remapped(f0, c.id, keys))
  }

  class Manager {
    const kernel: Ruleset
    const db: Database
    const docker: Docker
    const faults: Faults

    constructor (kernel: Ruleset, db: Database, docker: Docker, faults: Faults)
      requires db.faults == faults && docker.faults == faults
      ensures this.kernel == kernel && this.db == db && this.docker == docker && this.faults == faults
    {
      this.kernel, this.db, this.docker, this.faults := kernel, db, docker, faults;
    }

    /** Every committed firewall state is good, and the stored rows are sound. */
    ghost predicate Valid()
      reads this, kernel, db, docker
    {
      && db.faults == faults && docker.faults == faults
      && kernel.Valid() && AllGood(kernel.log) && RowsSound(db.tables) && DockerIDs(docker.now)
    }

    ghost function State(): Fw
      reads this, kernel
    {
      View(kernel.state)
    }

    /** newFirewallClient */
    method Dial() returns (nfc: Option<Conn>)
      modifies faults
      ensures nfc.Some? ==> fresh(nfc.value) && nfc.value.kernel == kernel && nfc.value.faults == faults && nfc.value.batch == []
      ensures old(faults.script) == [] ==> faults.script == [] && nfc.Some?
    {
      var fault := faults.Next();
      if fault { return None; }
      var conn := new Conn(kernel, faults);
      return Some(conn);
    }

    /** The map first, then the metadata that says whose addresses they are. */
    method ReconcileContainerMetadata(nfc: Conn, self: Self, keys: set<Key>) returns (mapped: bool, ok: bool)
      requires Valid() && nfc.kernel == kernel && nfc.faults == faults && nfc.batch == [] && IsContainerChain(State(), self.id)
      modifies nfc, kernel, db, faults
      ensures Valid()
      ensures Progress(old(State()), old(kernel.log), State(), kernel.log, self.id, keys, mapped, false, [])
      ensures ok ==> mapped && nfc.batch == []
      ensures IsContainerChain(State(), self.id)
      ensures db.tables == if ok then MetadataReplaced(old(db.tables), self.id, self.name, self.service, keys) else old(db.tables)
      ensures old(faults.script) == [] ==>
                faults.script == [] && (mapped <==> Remappable(old(State()), self.id, keys))
                && (ok <==> mapped && NameFree(old(db.tables), self.id, self.name))
    {
      ok := false;
      mapped := MapAddresses(nfc, self.id, keys);
      if !mapped { return; }
      ok := PersistMetadata(self, keys);
    }

    method MapAddresses(nfc: Conn, id: string, keys: set<Key>) returns (mapped: bool)
      requires Valid() && nfc.kernel == kernel && nfc.faults == faults && nfc.batch == [] && IsContainerChain(State(), id)
      modifies nfc, kernel, faults
      ensures Valid() && IsContainerChain(State(), id) && (mapped ==> nfc.batch == [])
      ensures Progress(old(State()), old(kernel.log), State(), kernel.log, id, keys, mapped, false, [])
      ensures old(faults.script) == [] ==> faults.script == [] && (mapped <==> Remappable(old(State()), id, keys))
    {
      mapped := ReplaceContainerAddressMappings(nfc, id, keys);
      if mapped { RemapKeepsGood(old(State()), id, keys); }
    }

    method PersistMetadata(self: Self, keys: set<Key>) returns (ok: bool)
      requires Valid() && ValidID(self.id)
      modifies db, faults
      ensures Valid()
      ensures db.tables == if ok then MetadataReplaced(old(db.tables), self.id, self.name, self.service, keys) else old(db.tables)
      ensures old(faults.script) == [] ==> faults.script == [] && (ok <==> NameFree(old(db.tables), self.id, self.name))
    {
      ok := db.Begin();
      if !ok { return; }
      ok := Store.ReplaceContainerMetadata(db, self.id, self.name, self.service, keys);
      if !ok { return; }
      ok := db.Commit();
    }

    /** The authoritative policy and the relationships it rests on. */
    method ApplyPolicy(nfc: Conn, self: Self, addrs: map<string, Key>, p: PolicyLabel)
      returns (authoritative: bool, ok: bool, ghost rds: seq<RuleDetails>)
      requires Valid() && nfc.kernel == kernel && nfc.faults == faults && nfc.batch == [] && IsContainerChain(State(), self.id)
      requires self.id in db.tables.containers && ParsedPolicy(p) && ValidKeys(addrs)
      modifies nfc, kernel, db, faults
      ensures Valid()
      ensures if authoritative then kernel.log == old(kernel.log) + [State()] else kernel.log == old(kernel.log)
      ensures authoritative ==> State() == PolicyReplaced(old(State()), self.id, Compiled(rds)) && Enabled(old(State()), Replace(self.id, rds))
      ensures !authoritative ==> State() == old(State())
      ensures !ok ==> db.tables == old(db.tables)
      ensures ok ==> authoritative && exists est, after ::
                Built(docker.now, old(db.tables), self, addrs, p, rds, est, after) && db.tables == EstAdded(after, self.id, est)
      ensures old(faults.script) == [] ==>
                faults.script == [] && (ok <==> Installable(docker.now, old(db.tables), self, addrs, p, old(State())))
    {
      authoritative, ok := false, false;
      var desired, est;
      desired, est, rds := BuildPolicy(docker, db, self, addrs, p);
      if desired.None? {
        UnbuildableIsNotInstallable(docker.now, db.tables, self, addrs, p, State());
        return;
      }
      BuiltIsUsable(docker.now, db.tables, self, addrs, p, rds, est, db.work, State());
      authoritative := CommitPolicy(nfc, self.id, desired.value, rds);
      if !authoritative { return; }
      ok := FinalizeContainerPolicy(db, self.id, est);
    }

    method CommitPolicy(nfc: Conn, id: string, desired: seq<Placed>, ghost rds: seq<RuleDetails>) returns (ok: bool)
      requires Valid() && nfc.kernel == kernel && nfc.faults == faults && nfc.batch == [] && IsContainerChain(State(), id)
      requires desired == Compiled(rds) && AllWellPlaced(id, rds)
      modifies nfc, kernel, faults
      ensures Valid()
      ensures if ok then kernel.log == old(kernel.log) + [State()] else kernel.log == old(kernel.log)
      ensures State() == if ok then PolicyReplaced(old(State()), id, Compiled(rds)) else old(State())
      ensures ok ==> Enabled(old(State()), Replace(id, rds))
      ensures old(faults.script) == [] ==> faults.script == [] && (ok <==> Replaceable(old(State()), id, desired))
    {
      var cancelled := faults.Next();
      if cancelled { return false; }
      ok := ReplaceContainerPolicy(nfc, id, desired);
      if ok { ReplaceKeepsGood(old(State()), id, rds); }
    }

    /** Make the container deny everything, over a fresh connection. */
    method QuarantineContainerPolicy(id: string) returns (firewallOk: bool, ok: bool)
      requires Valid() && IsContainerChain(State(), id)
      modifies kernel, db, faults
      ensures Valid()
      ensures if firewallOk then kernel.log == old(kernel.log) + [State()] else kernel.log == old(kernel.log)
      ensures State() == if firewallOk then PolicyReplaced(old(State()), id, []) else old(State())
      ensures old(faults.script) == [] ==> faults.script == [] && (firewallOk <==> Replaceable(old(State()), id, []))
      ensures db.tables == PolicyReset(old(db.tables), id) || db.tables == old(db.tables)
      ensures old(faults.script) == [] ==> db.tables == PolicyReset(old(db.tables), id)
    {
      firewallOk, ok := false, false;
      var nfc := Dial();
      if nfc.None? { return; }
      firewallOk := ReplaceContainerPolicy(nfc.value, id, []);
      if firewallOk { EmptyPolicyKeepsGood(old(State()), id); }
      var cleared := ClearContainerPolicyMetadata(id);
      ok := firewallOk && cleared;
    }

    method ClearContainerPolicyMetadata(id: string) returns (ok: bool)
      requires Valid()
      modifies db, faults
      ensures Valid()
      ensures db.tables == if ok then PolicyReset(old(db.tables), id) else old(db.tables)
      ensures old(faults.script) == [] ==> faults.script == [] && ok
    {
      ok := db.Begin();
      if !ok { return; }
      ok := ResetContainerPolicy(db, id);
      if !ok { return; }
      ok := db.Commit();
    }

    /** The firewall first; the database row goes only when the firewall holds
        nothing of the container any more. */
    method DeleteContainerRulesUntracked(id: string) returns (firewallOk: bool, ok: bool)
      requires Valid() && ValidID(id)
      modifies kernel, db, faults
      ensures Valid()
      ensures if firewallOk then kernel.log == old(kernel.log) + [State()] else kernel.log == old(kernel.log)
      ensures State() == if firewallOk then Deleted(old(State()), id) else old(State())
      ensures db.tables == if ok then ContainerDeleted(old(db.tables), id) else old(db.tables)
      ensures ok ==> firewallOk
      ensures firewallOk ==> Absent(State(), id)
      ensures old(faults.script) == [] ==>
                faults.script == [] && (ok <==> firewallOk) && (firewallOk <==> Deletable(old(State()), id))
    {
      firewallOk, ok := false, false;
      var nfc := Dial();
      if nfc.None? { return; }
      firewallOk := DeleteFirewallState(nfc.value, id);
      if !firewallOk { return; }
      DeleteKeepsGood(old(State()), id);
      DeleteIsCompleteAndLocal(old(State()), id);
      ok := db.Begin();
      if !ok { return; }
      ok := DeleteContainer(db, id);
    }

    /** Everything after the floor. */
    method InstallPolicy(nfc: Conn, self: Self, addrs: map<string, Key>, valid: bool, p: PolicyLabel)
      returns (ok: bool, mapped: bool, recorded: bool, authoritative: bool, ghost rds: seq<RuleDetails>)
      requires Valid() && nfc.kernel == kernel && nfc.faults == faults && nfc.batch == [] && IsContainerChain(State(), self.id)
      requires ParsedPolicy(p) && ValidKeys(addrs)
      modifies nfc, kernel, db, faults
      ensures Valid() && IsContainerChain(State(), self.id)
      ensures Progress(old(State()), old(kernel.log), State(), kernel.log, self.id, addrs.Values, mapped, authoritative, rds)
      ensures (recorded ==> mapped) && (ok ==> valid && recorded && authoritative)
      ensures !ok ==> db.tables == if recorded then MetadataReplaced(old(db.tables), self.id, self.name, self.service, addrs.Values)
                                   else old(db.tables)
      ensures ok ==> exists est, after ::
                && Built(docker.now, MetadataReplaced(old(db.tables), self.id, self.name, self.service, addrs.Values),
                         self, addrs, p, rds, est, after)
                && db.tables == EstAdded(after, self.id, est)
      ensures old(faults.script) == [] ==>
                faults.script == []
                && (recorded <==> mapped && NameFree(old(db.tables), self.id, self.name))
                && (ok <==> && valid && Remappable(old(State()), self.id, addrs.Values) && NameFree(old(db.tables), self.id, self.name)
                            && Installable(docker.now, MetadataReplaced(old(db.tables), self.id, self.name, self.service, addrs.Values),
                                           self, addrs, p, Remapped(old(State()), self.id, addrs.Values)))
    {
      ok, authoritative, rds := false, false, [];
      mapped, recorded := ReconcileContainerMetadata(nfc, self, addrs.Values);
      if !recorded || !valid { return; }
      ghost var f1, log1 := State(), kernel.log;
      authoritative, ok, rds := ApplyPolicy(nfc, self, addrs, p);
      ProgressContinues(old(State()), old(kernel.log), f1, log1, State(), kernel.log, self.id, addrs.Values, authoritative, rds);
    }

    /** The floor, over the connection the creation goes on to use. */
    method InstallFloor(id: string, quarantineFirst: bool) returns (nfc: Option<Conn>)
      requires Valid() && ValidID(id)
      modifies kernel, faults
      ensures Valid()
      ensures nfc.Some? ==> fresh(nfc.value) && nfc.value.kernel == kernel && nfc.value.faults == faults && nfc.value.batch == []
      ensures State() == if nfc.Some? then FloorInstalled(old(State()), id, quarantineFirst) else old(State())
      ensures nfc.None? ==> kernel.log == old(kernel.log)
      ensures nfc.Some? ==> IsContainerChain(State(), id) && StartsFrom(old(State()), old(kernel.log), kernel.log, id, quarantineFirst)
      ensures old(faults.script) == [] ==> faults.script == [] && (nfc.Some? <==> FloorPossible(old(State()), id))
    {
      nfc := Dial();
      if nfc.None? { return; }
      var ok := EnsureContainerDropPolicy(nfc.value, id, quarantineFirst);
      if !ok { return None; }
      FloorKeepsGood(old(State()), id, quarantineFirst);
    }

    /** The deferred rollback of a failed creation. */
    method RollBack(id: string, interruption: Interruption) returns (r: Ending, erased: bool)
      requires Valid() && IsContainerChain(State(), id)
      modifies kernel, db, faults
      ensures Valid()
      ensures RolledBackAs(r, interruption)
      ensures interruption.ShuttingDown? ==> State() == old(State()) && kernel.log == old(kernel.log) && db.tables == old(db.tables)
      ensures old(faults.script) == [] && interruption.Live? ==>
                (r.Quarantined? <==> Replaceable(old(State()), id, [])) && db.tables == PolicyReset(old(db.tables), id)
      ensures old(faults.script) == [] && interruption.DeletedMeanwhile? ==> (r.Removed? <==> Deletable(old(State()), id))
      ensures old(faults.script) == [] ==> faults.script == [] && (erased <==> r.Removed?)
      ensures State() == Undone(old(State()), id, r)
      ensures kernel.log == if r.Quarantined? || r.Removed? then old(kernel.log) + [State()] else old(kernel.log)
      ensures RolledBackRows(r, erased, id, old(db.tables), db.tables) && (erased ==> r.Removed? && Absent(State(), id))
    {
      erased := false;
      match interruption {
        case ShuttingDown =>
          r := Abandoned;
        case DeletedMeanwhile =>
          var firewallOk;
          firewallOk, erased := DeleteContainerRulesUntracked(id);
          r := if firewallOk then Removed else RemovalFailed;
        case Live =>
          var firewallOk, quarantined := QuarantineContainerPolicy(id);
          r := if firewallOk then Quarantined else QuarantineFailed;
      }
    }

    /** createContainerRules. `committed` is the place of the authoritative policy in
        the log, -1 if it was not committed; `steps` are the batches committed. */
    method CreateContainerRules(c: Container, quarantineFirst: bool, interruption: Interruption)
      returns (r: Ending, mapped: bool, recorded: bool, erased: bool, ghost committed: int, ghost rds: seq<RuleDetails>,
               ghost steps: seq<Step>)
      requires Valid() && Proper(c)
      modifies kernel, db, faults
      ensures Valid()
      ensures r.Applied? ==> Created(docker.now, c, quarantineFirst, old(State()), old(db.tables), State(), db.tables)
      ensures EndReport(c, quarantineFirst, interruption, r, mapped, committed >= 0, rds, old(State()), State())
      ensures LogReport(c, quarantineFirst, interruption, r, mapped, committed, rds, steps, old(State()), old(kernel.log), kernel.log)
      ensures DatabaseReport(c, r, mapped, recorded, erased, State(), old(db.tables), db.tables)
      ensures old(faults.script) == [] ==>
                faults.script == [] && (erased <==> r.Removed?) && (recorded <==> mapped && NameFree(old(db.tables), c.id, SelfOf(c).name))
                && (r.Rejected? <==> c.networks.None? || c.networks.value.Keys == {HOST} || !c.hasConfig || !FloorPossible(old(State()), c.id))
                && (r.Applied? <==> Creatable(docker.now, c, quarantineFirst, old(State()), old(db.tables)))
    {
      r, mapped, recorded, erased, committed, rds, steps := Rejected, false, false, false, -1, [], [];
      var started, ok, authoritative;
      ghost var fw, t, log := State(), db.tables, kernel.log;
      started, ok, mapped, recorded, authoritative, rds, steps := Attempt(c, quarantineFirst);
      if !started {
        steps := [];
        NothingHappened(c, quarantineFirst, interruption, rds, fw, log, t);
        return;
      }
      committed := if authoritative then |kernel.log| - 1 else -1;
      r, erased, steps := Conclude(c, quarantineFirst, interruption, ok, mapped, recorded, authoritative, rds, steps, fw, log, t);
    }

    /** The creation is left as it is or rolled back, and reported. */
    method Conclude(c: Container, ghost quarantineFirst: bool, interruption: Interruption, ok: bool, ghost mapped: bool,
                    ghost recorded: bool, ghost authoritative: bool, ghost rds: seq<RuleDetails>, ghost steps1: seq<Step>,
                    ghost fw: Fw, ghost log: seq<Fw>, ghost t: Tables)
      returns (r: Ending, erased: bool, ghost steps: seq<Step>)
      requires Valid() && AttemptReport(c, quarantineFirst, mapped, authoritative, rds, steps1, fw, log, State(), kernel.log)
      requires (recorded ==> mapped) && (ok ==> authoritative) && AttemptRows(ok, recorded, c, t, db.tables)
      modifies kernel, db, faults
      ensures Valid()
      ensures (r.Applied? <==> ok) && !r.Rejected? && (ok ==> State() == old(State()) && db.tables == old(db.tables))
      ensures EndReport(c, quarantineFirst, interruption, r, mapped, authoritative, rds, fw, State())
      ensures LogReport(c, quarantineFirst, interruption, r, mapped, if authoritative then |old(kernel.log)| - 1 else -1, rds, steps,
                        fw, log, kernel.log)
      ensures DatabaseReport(c, r, mapped, recorded, erased, State(), t, db.tables)
      ensures old(faults.script) == [] ==> faults.script == [] && (erased <==> r.Removed?)
    {
      ghost var f1, log1, t1 := State(), kernel.log, db.tables;
      r, erased := Settle(c.id, ok, interruption);
      steps := CreationReported(c, quarantineFirst, interruption, r, mapped, recorded, erased, authoritative, rds, steps1, fw, log, t,
                                f1, log1, t1, State(), kernel.log, db.tables);
    }

    /** A creation that succeeded is left as it is, any other is rolled back. */
    method Settle(id: string, ok: bool, interruption: Interruption) returns (r: Ending, erased: bool)
      requires Valid() && IsContainerChain(State(), id)
      modifies kernel, db, faults
      ensures Valid()
      ensures !r.Rejected? && if ok then r.Applied? else RolledBackAs(r, interruption)
      ensures State() == Undone(old(State()), id, r)
      ensures kernel.log == if r.Quarantined? || r.Removed? then old(kernel.log) + [State()] else old(kernel.log)
      ensures if ok then State() == old(State()) && db.tables == old(db.tables)
              else RolledBackRows(r, erased, id, old(db.tables), db.tables)
      ensures erased ==> r.Removed? && Absent(State(), id)
      ensures old(faults.script) == [] ==> faults.script == [] && (erased <==> r.Removed?)
    {
      r, erased := Applied, false;
      if !ok { r, erased := RollBack(id, interruption); }
    }

    /** The creation up to its success or first error, without the rollback. */
    method Attempt(c: Container, quarantineFirst: bool)
      returns (started: bool, ok: bool, mapped: bool, recorded: bool, authoritative: bool, ghost rds: seq<RuleDetails>, ghost steps: seq<Step>)
      requires Valid() && Proper(c)
      modifies kernel, db, faults
      ensures Valid()
      ensures !started ==> State() == old(State()) && kernel.log == old(kernel.log) && db.tables == old(db.tables) && !mapped && !recorded
      ensures started ==> AttemptReport(c, quarantineFirst, mapped, authoritative, rds, steps, old(State()), old(kernel.log), State(), kernel.log)
      ensures ok ==> started && recorded && authoritative
      ensures ok ==> Created(docker.now, c, quarantineFirst, old(State()), old(db.tables), State(), db.tables)
      ensures recorded ==> mapped
      ensures AttemptRows(ok, recorded, c, old(db.tables), db.tables)
      ensures old(faults.script) == [] ==>
                faults.script == [] && started == Manageable(c, old(State()))
                && (recorded <==> mapped && NameFree(old(db.tables), c.id, SelfOf(c).name))
                && ok == Creatable(docker.now, c, quarantineFirst, old(State()), old(db.tables))
    {
      started, ok, mapped, recorded, authoritative, rds, steps := false, false, false, false, false, [], [];
      ghost var fw, log := State(), kernel.log;
      if c.networks.None? || c.networks.value.Keys == {HOST} || !c.hasConfig { return; }
      var networks, addrs, valid := PolicyScope(c.scopeLabel, c.project, c.networks.value);
      var nfc := InstallFloor(c.id, quarantineFirst);
      if nfc.None? { return; }
      started := true;
      ghost var log0 := kernel.log;
      ok, mapped, recorded, authoritative, rds := InstallPolicy(nfc.value, SelfOf(c), addrs, valid, c.policy);
      steps := AttemptReported(c, quarantineFirst, mapped, authoritative, rds, fw, log, log0, State(), kernel.log);
      if ok {
        AppliedIsCreated(docker.now, c, quarantineFirst, old(State()), old(db.tables), State(), db.tables, rds);
        CreatedRows(docker.now, c, quarantineFirst, old(State()), old(db.tables), State(), db.tables);
      }
    }

    /** createBaseRules, on start and before every reconciliation. */
    method RepairBase() returns (ok: bool)
      requires Valid()
      modifies kernel, faults
      ensures Valid()
      ensures State() == if ok then BaseRepaired(old(State())) else old(State())
      ensures kernel.log == if ok then old(kernel.log) + [State()] else old(kernel.log)
      ensures old(faults.script) == [] ==> faults.script == [] && (ok <==> Repairable(old(State())))
    {
      var nfc := Dial();
      if nfc.None? { return false; }
      ok := CreateBaseRules(nfc.value);
      if ok { RepairKeepsGood(old(State())); }
    }

    /** The first repair: from a table without container chains, or from the good
        state an earlier process left. The log of committed states starts here. */
    method InstallBase() returns (ok: bool)
      requires db.faults == faults && docker.faults == faults && kernel.Valid()
      requires RowsSound(db.tables) && DockerIDs(docker.now)
      requires Good(State()) || (Mapping(State()) == map[] && forall id :: ValidID(id) ==> ChainName(id) !in State().chains)
      modifies kernel, faults
      ensures ok ==> Valid() && State() == BaseRepaired(old(State())) && kernel.log == [State()]
      ensures old(faults.script) == [] ==> faults.script == [] && (ok <==> Repairable(old(State())))
    {
      var nfc := Dial();
      if nfc.None? { return false; }
      ok := CreateBaseRules(nfc.value);
      if ok {
        RepairKeepsGood(old(State()));
        kernel.log := [State()];
      }
    }

    /** Any operations in any order, each seeing its own state of Docker, and each
        failing or interrupted anywhere. The committed states form a run of their
        batches, and Valid says that all of them are good. The minutes say of each
        operation what it committed. The addrs table stays the address map if every
        committed change of the map was also recorded, and every committed deletion
        also erased its row; without failed calls and name clashes they all are. A
        container's row goes only when the firewall, at that moment, holds nothing of
        it. */
    method Serve(ops: seq<(Snapshot, Operation)>) returns (ghost minutes: Minutes)
      requires Valid() && forall i :: 0 <= i < |ops| ==> DockerIDs(ops[i].0) && ProperOperation(ops[i].1)
      modifies kernel, db, faults, docker
      ensures Valid()
      ensures Served(ops, |ops|, old(kernel.log), old(db.tables), kernel.log, db.tables, minutes)
      ensures AllWhole(minutes.receipts) && old(Agreement(State(), db.tables)) ==> Agreement(State(), db.tables)
      ensures RowsGoWhenAbsent(old(kernel.log), kernel.log, old(db.tables), db.tables)
      ensures old(faults.script) == [] && NamesApart(ops, old(db.tables)) ==> AllWhole(minutes.receipts)
    {
      ghost var log, t, apart := kernel.log, db.tables, faults.script == [] && NamesApart(ops, db.tables);
      minutes := NothingServed(ops, log, t);
      for i := 0 to |ops|
        invariant Valid() && Served(ops, i, log, t, kernel.log, db.tables, minutes)
        invariant apart ==> faults.script == [] && AllWhole(minutes.receipts) && NamesApart(ops, db.tables)
      {
        minutes := ServeNext(ops, i, log, t, minutes);
      }
      ServedAgrees(ops, log, t, kernel.log, db.tables, minutes);
    }

    /** The next operation, on Docker's state at its time. */
    method ServeNext(ops: seq<(Snapshot, Operation)>, i: nat, ghost log: seq<Fw>, ghost t: Tables, ghost minutes: Minutes)
      returns (ghost longer: Minutes)
      requires Valid() && i < |ops| && DockerIDs(ops[i].0) && ProperOperation(ops[i].1)
      requires Served(ops, i, log, t, kernel.log, db.tables, minutes)
      modifies kernel, db, faults, docker
      ensures Valid() && Served(ops, i + 1, log, t, kernel.log, db.tables, longer)
      ensures old(faults.script) == [] ==> faults.script == []
      ensures old(faults.script) == [] && NamesApart(ops, old(db.tables)) && AllWhole(minutes.receipts) ==>
                AllWhole(longer.receipts) && NamesApart(ops, db.tables)
    {
      docker.now := ops[i].0;
      ghost var log1, t1 := kernel.log, db.tables;
      ghost var receipt, more;
      receipt, more := ServeOne(ops[i].1);
      longer := ServedOn(ops, i, log, t, log1, t1, kernel.log, db.tables, minutes, receipt, more);
    }

    method ServeOne(op: Operation) returns (ghost receipt: Receipt, ghost steps: seq<Step>)
      requires Valid() && ProperOperation(op)
      modifies kernel, db, faults
      ensures Valid()
      ensures Ran(old(kernel.log), kernel.log, steps) && forall s :: s in steps ==> Belongs(op, s)
      ensures Truthful(op, receipt, old(State()), old(db.tables), State(), db.tables)
      ensures old(faults.script) == [] ==> faults.script == [] && (NameUsable(op, old(db.tables)) ==> Whole(receipt))
    {
      match op {
        case Create(c, quarantineFirst, interruption) =>
          receipt, steps := ServeCreation(c, quarantineFirst, interruption);
        case Delete(id) =>
          receipt, steps := ServeDeletion(id);
        case Repair =>
          var ok := RepairBase();
          receipt, steps := Receipt(false, false, false, false), if ok then [Step.Repair] else [];
      }
    }

    method ServeDeletion(id: string) returns (ghost receipt: Receipt, ghost steps: seq<Step>)
      requires Valid() && ValidID(id)
      modifies kernel, db, faults
      ensures Valid()
      ensures Ran(old(kernel.log), kernel.log, steps) && forall s :: s in steps ==> s == Remove(id)
      ensures Truthful(Delete(id), receipt, old(State()), old(db.tables), State(), db.tables)
      ensures old(faults.script) == [] ==> faults.script == [] && Whole(receipt)
    {
      ghost var log, t := kernel.log, db.tables;
      var firewallOk, ok := DeleteContainerRulesUntracked(id);
      receipt := Receipt(false, false, firewallOk, ok);
      steps := DeletionServed(id, firewallOk, ok, log, kernel.log, t, db.tables);
    }

    method ServeCreation(c: Container, quarantineFirst: bool, interruption: Interruption) returns (ghost receipt: Receipt, ghost steps: seq<Step>)
      requires Valid() && Proper(c)
      modifies kernel, db, faults
      ensures Valid()
      ensures Ran(old(kernel.log), kernel.log, steps) && forall s :: s in steps ==> Belongs(Create(c, quarantineFirst, interruption), s)
      ensures Truthful(Create(c, quarantineFirst, interruption), receipt, old(State()), old(db.tables), State(), db.tables)
      ensures old(faults.script) == [] ==> faults.script == [] && (NameFree(old(db.tables), c.id, SelfOf(c).name) ==> Whole(receipt))
    {
      ghost var fw, t := State(), db.tables;
      var r, mapped, recorded, erased;
      ghost var committed, rds;
      r, mapped, recorded, erased, committed, rds, steps := CreateContainerRules(c, quarantineFirst, interruption);
      receipt := Receipt(mapped, recorded, r.Removed?, erased);
      CreationServed(c, quarantineFirst, interruption, r, mapped, recorded, erased, committed >= 0, rds, fw, t, State(), db.tables);
    }
  }

  lemma CreatedEnd(now: Snapshot, c: Container, quarantineFirst: bool, fw: Fw, t: Tables, fw': Fw, t': Tables) returns (desired: seq<Placed>)
    requires Created(now, c, quarantineFirst, fw, t, fw', t')
    ensures fw' == PolicyReplaced(Remapped(FloorInstalled(fw, c.id, quarantineFirst), c.id, PolicyKeys(c)), c.id, desired)
  {
    var self, keys := SelfOf(c), PolicyKeys(c);
    var rds, est, after :|
      && Built(now, MetadataReplaced(t, c.id, self.name, c.service, keys), self, Collected(self.networks), c.policy, rds, est, after)
      && t' == EstAdded(after, c.id, est)
      && fw' == PolicyReplaced(Remapped(FloorInstalled(fw, c.id, quarantineFirst), c.id, keys), c.id, Compiled(rds));
    desired := Compiled(rds);
  }

  lemma EndMap(fw: Fw, id: string, quarantineFirst: bool, keys: set<Key>, desired: seq<Placed>)
    ensures Mapping(PolicyReplaced(Remapped(FloorInstalled(fw, id, quarantineFirst), id, keys), id, desired)) == RemappedMap(Mapping(fw), id, keys)
  {
  }

  /** After a successful creation the addrs table is the address map, if it was before. */
  lemma CreatedKeepsAgreement(now: Snapshot, c: Container, quarantineFirst: bool, fw: Fw, t: Tables, fw': Fw, t': Tables)
    requires Agreement(fw, t) && Created(now, c, quarantineFirst, fw, t, fw', t')
    ensures Agreement(fw', t')
  {
    var desired := CreatedEnd(now, c, quarantineFirst, fw, t, fw', t');
    EndMap(fw, c.id, quarantineFirst, PolicyKeys(c), desired);
    CreatedRows(now, c, quarantineFirst, fw, t, fw', t');
    RecordedAgrees(Mapping(fw), t.addrs, c.id, PolicyKeys(c));
  }

  datatype Operation = Create(c: Container, quarantineFirst: bool, interruption: Interruption) | Delete(id: string) | Repair

  ghost predicate ProperOperation(op: Operation)
  {
    match op
    case Create(c, _, _) => Proper(c)
    case Delete(id) => ValidID(id)
    case Repair => true
  }

  predicate Installs(c: Container, quarantineFirst: bool, s: Step)
  {
    s == Floor(c.id, quarantineFirst) || s == Remap(c.id, PolicyKeys(c)) || (s.Replace? && s.id == c.id)
  }

  /** The batches an operation may commit; a creation removes its container only if
      it was cancelled by a deletion. */
  predicate Belongs(op: Operation, s: Step)
  {
    match op
    case Create(c, quarantineFirst, interruption) =>
      Installs(c, quarantineFirst, s) || (s == Remove(c.id) && interruption.DeletedMeanwhile?)
    case Delete(id) => s == Remove(id)
    case Repair => s == Step.Repair
  }

  predicate Attributed(ops: seq<(Snapshot, Operation)>, steps: seq<Step>)
  {
    forall s :: s in steps ==> exists i :: 0 <= i < |ops| && Belongs(ops[i].1, s)
  }

  // ----- what operations commit, and what becomes of the ownership index -----

  datatype Moment = Moment(fw: Fw, t: Tables)

  /** Whether an operation changed the map for its container and recorded that, and
      whether it removed the container from the firewall and erased its row. */
  datatype Receipt = Receipt(mapped: bool, recorded: bool, removed: bool, erased: bool)

  /** The batches of some operations, their receipts, and the moments between them. */
  datatype Minutes = Minutes(steps: seq<Step>, receipts: seq<Receipt>, moments: seq<Moment>)

  predicate Whole(p: Receipt) { (p.mapped ==> p.recorded) && (p.removed ==> p.erased) }

  predicate AllWhole(receipts: seq<Receipt>)
  {
    forall i :: 0 <= i < |receipts| ==> Whole(receipts[i])
  }

  /** The map after an operation on a container with these addresses. */
  function MapAfter(m: AddrMap, id: string, keys: set<Key>, p: Receipt): AddrMap
  {
    var m1 := if p.mapped then RemappedMap(m, id, keys) else m;
    if p.removed then MapWithoutTarget(m1, id) else m1
  }

  /** The addrs table after it. */
  function AddrsAfter(a: map<Key, string>, id: string, keys: set<Key>, p: Receipt): map<Key, string>
  {
    var a1 := if p.recorded then AddrsWith(AddrsWithout(a, id), keys, id) else a;
    if p.erased then AddrsWithout(a1, id) else a1
  }

  function IdOf(op: Operation): string
  {
    match op
    case Create(c, _, _) => c.id
    case Delete(id) => id
    case Repair => ""
  }

  function KeysOf(op: Operation): set<Key> { if op.Create? then PolicyKeys(op.c) else {} }

  /** The receipt says what became of the map, the addrs table and the rows. */
  ghost predicate Truthful(op: Operation, p: Receipt, fw: Fw, t: Tables, fw': Fw, t': Tables)
  {
    && Mapping(fw') == MapAfter(Mapping(fw), IdOf(op), KeysOf(op), p)
    && t'.addrs == AddrsAfter(t.addrs, IdOf(op), KeysOf(op), p)
    && (p.recorded ==> p.mapped) && (p.erased ==> p.removed) && (p.removed ==> Absent(fw', IdOf(op)))
    && (p.mapped ==> op.Create?) && (p.removed ==> MayRemove(op, IdOf(op)))
    && RowsAfter(op, t, fw', t')
  }

  /** What a creation that installed the floor ends in. */
  function CreationEnd(fw: Fw, c: Container, quarantineFirst: bool, mapped: bool, authoritative: bool, rds: seq<RuleDetails>, r: Ending): Fw
  {
    Undone(Reached(FloorInstalled(fw, c.id, quarantineFirst), c.id, PolicyKeys(c), mapped, authoritative, rds), c.id, r)
  }

  /** A creation before any rollback: how far it came, by which batches, and with
      quarantine first every new state but the authoritative policy shut. */
  ghost predicate AttemptReport(c: Container, quarantineFirst: bool, mapped: bool, authoritative: bool, rds: seq<RuleDetails>,
                                steps: seq<Step>, fw: Fw, log: seq<Fw>, f1: Fw, log1: seq<Fw>)
  {
    && f1 == Reached(FloorInstalled(fw, c.id, quarantineFirst), c.id, PolicyKeys(c), mapped, authoritative, rds) && IsContainerChain(f1, c.id)
    && Ran(log, log1, steps) && (forall s :: s in steps ==> Installs(c, quarantineFirst, s)) && log1[|log1| - 1] == f1
    && (authoritative ==> mapped && |log| < |log1|)
    && (quarantineFirst ==> Closed(log, log1, c.id, if authoritative then |log1| - 1 else -1))
  }

  /** The firewall after a creation: what it ends in and leaves behind. */
  ghost predicate EndReport(c: Container, quarantineFirst: bool, interruption: Interruption, r: Ending, mapped: bool, authoritative: bool,
                            rds: seq<RuleDetails>, fw: Fw, fw': Fw)
  {
    if r.Rejected? then fw' == fw && !mapped
    else
      && fw' == CreationEnd(fw, c, quarantineFirst, mapped, authoritative, rds, r)
      && LeavesBehind(r, mapped, fw', c.id, PolicyKeys(c))
      && (r.Applied? || RolledBackAs(r, interruption))
  }

  /** The batches it committed. With quarantine first, every new state but the
      authoritative policy is shut; without, no packet notices the floor. */
  ghost predicate LogReport(c: Container, quarantineFirst: bool, interruption: Interruption, r: Ending, mapped: bool, committed: int,
                            rds: seq<RuleDetails>, steps: seq<Step>, fw: Fw, log: seq<Fw>, log': seq<Fw>)
  {
    && Ran(log, log', steps) && (forall s :: s in steps ==> Belongs(Create(c, quarantineFirst, interruption), s))
    && CommittedAt(log, log', committed, mapped, r, CreationEnd(fw, c, quarantineFirst, true, true, rds, Applied))
    && (if quarantineFirst then Closed(log, log', c.id, committed) else FloorsUnnoticed(log, log', steps))
  }

  /** The database after a creation: the metadata are recorded after the map, and the
      row is erased only when nothing of the container is left. */
  ghost predicate DatabaseReport(c: Container, r: Ending, mapped: bool, recorded: bool, erased: bool, fw': Fw, t: Tables, t': Tables)
  {
    && CreationRows(r, recorded, erased, c, t, t') && (r.Rejected? ==> !recorded)
    && (recorded ==> mapped) && (erased ==> r.Removed? && Absent(fw', c.id))
  }

  /** The authoritative policy is the last of the new states but for a rollback. */
  ghost predicate CommittedAt(before: seq<Fw>, log: seq<Fw>, committed: int, mapped: bool, r: Ending, policy: Fw)
  {
    && (committed != -1 ==> mapped)
    && (committed == -1 || (|before| <= committed < |log| && log[committed] == policy))
    && (committed != -1 ==> |log| == committed + if r.Quarantined? || r.Removed? then 2 else 1)
    && (r.Applied? ==> committed != -1) && (r.Rejected? ==> committed == -1)
  }

  /** An operation adds no row but the container's own, and takes one away only if
      nothing of the container is left in the firewall. */
  ghost predicate RowsAfter(op: Operation, t: Tables, fw: Fw, t': Tables)
  {
    && (forall id :: id in t.containers && id !in t'.containers ==> Absent(fw, id))
    && forall id :: id in t'.containers ==>
         || (id in t.containers && t'.containers[id] == t.containers[id])
         || (op.Create? && id == op.c.id && t'.containers[id] == SelfOf(op.c).name)
  }

  /** Every row that has gone was gone at a moment when the firewall held nothing of
      the container. */
  ghost predicate RowsGoWhenAbsent(before: seq<Fw>, log: seq<Fw>, t: Tables, t': Tables)
  {
    forall id :: id in t.containers && id !in t'.containers ==> AbsentSomewhere(before, log, id)
  }

  ghost predicate AbsentSomewhere(before: seq<Fw>, log: seq<Fw>, id: string)
  {
    exists k :: 0 <= k < |log| && |before| <= k + 1 && Absent(log[k], id)
  }

  /** The first `n` operations: the committed states are a run of their batches, and
      from moment to moment their receipts are true. */
  ghost predicate Served(ops: seq<(Snapshot, Operation)>, n: nat, before: seq<Fw>, t: Tables, log: seq<Fw>, t': Tables, m: Minutes)
  {
    && Ran(before, log, m.steps) && Attributed(ops, m.steps)
    && n <= |ops| && |m.receipts| == n && |m.moments| == n + 1
    && m.moments[0] == Moment(before[|before| - 1], t) && m.moments[n] == Moment(log[|log| - 1], t')
    && (forall i :: 0 <= i < n ==> TrueReceipt(ops, m, i))
    && forall i :: 0 <= i <= n ==> InLog(before, log, m.moments[i].fw)
  }

  ghost predicate TrueReceipt(ops: seq<(Snapshot, Operation)>, m: Minutes, i: nat)
    requires i < |ops| && i < |m.receipts| && i + 1 < |m.moments|
  {
    Truthful(ops[i].1, m.receipts[i], m.moments[i].fw, m.moments[i].t, m.moments[i + 1].fw, m.moments[i + 1].t)
  }

  ghost predicate InLog(before: seq<Fw>, log: seq<Fw>, fw: Fw)
  {
    exists k :: 0 <= k < |log| && |before| <= k + 1 && log[k] == fw
  }

  lemma ServedOn(ops: seq<(Snapshot, Operation)>, i: nat, before: seq<Fw>, t: Tables, log1: seq<Fw>, t1: Tables, log: seq<Fw>, t': Tables,
                 m: Minutes, receipt: Receipt, more: seq<Step>) returns (longer: Minutes)
    requires i < |ops| && Served(ops, i, before, t, log1, t1, m)
    requires Ran(log1, log, more) && forall s :: s in more ==> Belongs(ops[i].1, s)
    requires Truthful(ops[i].1, receipt, log1[|log1| - 1], t1, log[|log| - 1], t')
    ensures Served(ops, i + 1, before, t, log, t', longer) && longer.receipts == m.receipts + [receipt]
    ensures NamesApart(ops, t1) ==> NamesApart(ops, t') && NameUsable(ops[i].1, t1)
  {
    var last := Moment(log[|log| - 1], t');
    longer := Minutes(m.steps + more, m.receipts + [receipt], m.moments + [last]);
    RanOn(before, log1, log, m.steps, more);
    NamesStayApart(ops, i, t1, last.fw, t');
    forall k | 0 <= k < i ensures TrueReceipt(ops, longer, k) {
      assert TrueReceipt(ops, m, k);
      assert longer.moments[k] == m.moments[k] && longer.moments[k + 1] == m.moments[k + 1];
    }
    assert longer.moments[i] == m.moments[i];
    forall k | 0 <= k <= i + 1 ensures InLog(before, log, longer.moments[k].fw) {
      if k <= i {
        assert InLog(before, log1, m.moments[k].fw);
        var j :| 0 <= j < |log1| && |before| <= j + 1 && log1[j] == m.moments[k].fw;
        assert log[j] == log1[j];
      }
    }
  }

  /** A whole operation keeps the addrs table equal to the map. */
  lemma WholeKeepsAgreement(op: Operation, p: Receipt, fw: Fw, t: Tables, fw': Fw, t': Tables)
    requires Truthful(op, p, fw, t, fw', t') && Whole(p) && Agreement(fw, t)
    ensures Agreement(fw', t')
  {
    ReceiptAgrees(Mapping(fw), t.addrs, IdOf(op), KeysOf(op), p);
  }

  lemma ReceiptAgrees(m: AddrMap, a: map<Key, string>, id: string, keys: set<Key>, p: Receipt)
    requires IndexAgrees(m, a) && Whole(p) && (p.recorded ==> p.mapped) && (p.erased ==> p.removed)
    ensures IndexAgrees(MapAfter(m, id, keys, p), AddrsAfter(a, id, keys, p))
  {
    var q := p.(removed := false, erased := false);
    if p.mapped { RecordedAgrees(m, a, id, keys); }
    if p.removed { ErasedAgrees(MapAfter(m, id, keys, q), AddrsAfter(a, id, keys, q), id); }
  }

  /** While all operations are whole, the index agrees at every moment. */
  lemma {:induction false} AgreementStays(ops: seq<(Snapshot, Operation)>, m: Minutes, n: nat)
    requires n <= |ops| && n <= |m.receipts| && n < |m.moments| && Agreement(m.moments[0].fw, m.moments[0].t)
    requires forall i :: 0 <= i < n ==> TrueReceipt(ops, m, i) && Whole(m.receipts[i])
    ensures Agreement(m.moments[n].fw, m.moments[n].t)
  {
    if n > 0 {
      AgreementStays(ops, m, n - 1);
      assert TrueReceipt(ops, m, n - 1);
      WholeKeepsAgreement(ops[n - 1].1, m.receipts[n - 1], m.moments[n - 1].fw, m.moments[n - 1].t, m.moments[n].fw, m.moments[n].t);
    }
  }

  lemma NothingServed(ops: seq<(Snapshot, Operation)>, log: seq<Fw>, t: Tables) returns (m: Minutes)
    requires log != []
    ensures Served(ops, 0, log, t, log, t, m) && AllWhole(m.receipts)
  {
    m := Minutes([], [], [Moment(log[|log| - 1], t)]);
    assert InLog(log, log, log[|log| - 1]);
  }

  lemma ServedAgrees(ops: seq<(Snapshot, Operation)>, before: seq<Fw>, t: Tables, log: seq<Fw>, t': Tables, m: Minutes)
    requires Served(ops, |ops|, before, t, log, t', m)
    ensures AllWhole(m.receipts) && Agreement(before[|before| - 1], t) ==> Agreement(log[|log| - 1], t')
    ensures RowsGoWhenAbsent(before, log, t, t')
  {
    ServedRows(ops, |ops|, before, t, log, t', m);
    if AllWhole(m.receipts) && Agreement(before[|before| - 1], t) { AgreementStays(ops, m, |ops|); }
  }

  /** Rows go at moments that are in the log, and nothing of the container is there then. */
  lemma {:induction false} RowsGo(ops: seq<(Snapshot, Operation)>, before: seq<Fw>, log: seq<Fw>, m: Minutes, n: nat, id: string)
    requires n <= |ops| && n <= |m.receipts| && n < |m.moments|
    requires (forall i :: 0 <= i < n ==> TrueReceipt(ops, m, i)) && forall i :: 0 <= i <= n ==> InLog(before, log, m.moments[i].fw)
    requires id in m.moments[0].t.containers && id !in m.moments[n].t.containers
    ensures AbsentSomewhere(before, log, id)
  {
    if id in m.moments[n - 1].t.containers {
      assert TrueReceipt(ops, m, n - 1);
      assert InLog(before, log, m.moments[n].fw);
    } else {
      RowsGo(ops, before, log, m, n - 1, id);
    }
  }

  lemma ServedRows(ops: seq<(Snapshot, Operation)>, n: nat, before: seq<Fw>, t: Tables, log: seq<Fw>, t': Tables, m: Minutes)
    requires Served(ops, n, before, t, log, t', m)
    ensures RowsGoWhenAbsent(before, log, t, t')
  {
    forall id | id in t.containers && id !in t'.containers ensures AbsentSomewhere(before, log, id) { RowsGo(ops, before, log, m, n, id); }
  }

  predicate MayRemove(op: Operation, id: string)
  {
    op == Delete(id) || (op.Create? && op.c.id == id && op.interruption.DeletedMeanwhile?)
  }

  /** While operations are served of which none may remove a container, its drop
      stays in every committed state. */
  lemma ServedDropStays(ops: seq<(Snapshot, Operation)>, before: seq<Fw>, t: Tables, log: seq<Fw>, t': Tables, m: Minutes, id: string, n: nat)
    requires Served(ops, |ops|, before, t, log, t', m) && |before| - 1 <= n < |log|
    requires Good(log[|before| - 1]) && IsContainerChain(log[|before| - 1], id)
    requires forall i :: 0 <= i < |ops| ==> !MayRemove(ops[i].1, id)
    ensures IsContainerChain(log[n], id) && DropRule(id) in log[n].chains[ChainName(id)]
  {
    RanIsRun(before, log, m.steps);
    forall i | 0 <= i < |m.steps| ensures m.steps[i] != Remove(id) {
      assert m.steps[i] in m.steps;
    }
    DropStaysUntilRemoved(log[|before| - 1..], m.steps, 0, n - (|before| - 1), id);
  }

  /** No other container has the name. */
  predicate NameUsable(op: Operation, t: Tables)
  {
    op.Create? ==> NameFree(t, op.c.id, SelfOf(op.c).name)
  }

  /** Different containers have different names, those recorded included. */
  predicate NamesApart(ops: seq<(Snapshot, Operation)>, t: Tables)
  {
    && (forall i :: 0 <= i < |ops| ==> NameUsable(ops[i].1, t))
    && forall i, j :: 0 <= i < |ops| && 0 <= j < |ops| && ops[i].1.Create? && ops[j].1.Create? && ops[i].1.c.id != ops[j].1.c.id ==>
         SelfOf(ops[i].1.c).name != SelfOf(ops[j].1.c).name
  }

  lemma NamesStayApart(ops: seq<(Snapshot, Operation)>, i: nat, t: Tables, fw: Fw, t': Tables)
    requires i < |ops| && RowsAfter(ops[i].1, t, fw, t')
    ensures NamesApart(ops, t) ==> NamesApart(ops, t')
  {
  }

  lemma DeletionServed(id: string, firewallOk: bool, ok: bool, log: seq<Fw>, log': seq<Fw>, t: Tables, t': Tables) returns (steps: seq<Step>)
    requires log != [] && ValidID(id) && (ok ==> firewallOk)
    requires log' == if firewallOk then log + [Deleted(log[|log| - 1], id)] else log
    requires t' == if ok then ContainerDeleted(t, id) else t
    ensures Ran(log, log', steps) && forall s :: s in steps ==> s == Remove(id)
    ensures Truthful(Delete(id), Receipt(false, false, firewallOk, ok), log[|log| - 1], t, log'[|log'| - 1], t')
  {
    DeleteIsCompleteAndLocal(log[|log| - 1], id);
    steps := if firewallOk then [Remove(id)] else [];
  }

  lemma CreationRowsAfter(op: Operation, r: Ending, mapped: bool, recorded: bool, erased: bool, t: Tables, fw: Fw, t': Tables)
    requires op.Create? && DatabaseReport(op.c, r, mapped, recorded, erased, fw, t, t')
    ensures RowsAfter(op, t, fw, t')
    ensures t'.addrs == AddrsAfter(t.addrs, op.c.id, PolicyKeys(op.c), Receipt(mapped, recorded, r.Removed?, erased))
  {
  }

  lemma ReachedMap(f0: Fw, id: string, keys: set<Key>, mapped: bool, authoritative: bool, rds: seq<RuleDetails>)
    requires authoritative ==> mapped
    ensures Mapping(Reached(f0, id, keys, mapped, authoritative, rds)) == if mapped then RemappedMap(Mapping(f0), id, keys) else Mapping(f0)
  {
  }

  lemma UndoneMap(f1: Fw, id: string, r: Ending)
    ensures Mapping(Undone(f1, id, r)) == if r.Removed? then MapWithoutTarget(Mapping(f1), id) else Mapping(f1)
  {
  }

  lemma CreationMapAfter(fw: Fw, c: Container, quarantineFirst: bool, interruption: Interruption, r: Ending, mapped: bool, recorded: bool,
                         erased: bool, authoritative: bool, rds: seq<RuleDetails>, fw': Fw)
    requires EndReport(c, quarantineFirst, interruption, r, mapped, authoritative, rds, fw, fw') && (authoritative ==> mapped)
    ensures Mapping(fw') == MapAfter(Mapping(fw), c.id, PolicyKeys(c), Receipt(mapped, recorded, r.Removed?, erased))
    ensures r.Removed? ==> Absent(fw', c.id) && interruption.DeletedMeanwhile?
  {
    var f0 := FloorInstalled(fw, c.id, quarantineFirst);
    ReachedMap(f0, c.id, PolicyKeys(c), mapped, authoritative, rds);
    UndoneMap(Reached(f0, c.id, PolicyKeys(c), mapped, authoritative, rds), c.id, r);
  }

  lemma CreationServed(c: Container, quarantineFirst: bool, interruption: Interruption, r: Ending, mapped: bool, recorded: bool,
                       erased: bool, authoritative: bool, rds: seq<RuleDetails>, fw: Fw, t: Tables, fw': Fw, t': Tables)
    requires EndReport(c, quarantineFirst, interruption, r, mapped, authoritative, rds, fw, fw') && (authoritative ==> mapped)
    requires DatabaseReport(c, r, mapped, recorded, erased, fw', t, t')
    ensures Truthful(Create(c, quarantineFirst, interruption), Receipt(mapped, recorded, r.Removed?, erased), fw, t, fw', t')
  {
    CreationRowsAfter(Create(c, quarantineFirst, interruption), r, mapped, recorded, erased, t, fw', t');
    CreationMapAfter(fw, c, quarantineFirst, interruption, r, mapped, recorded, erased, authoritative, rds, fw');
  }

  lemma DatabaseReported(c: Container, r: Ending, mapped: bool, recorded: bool, erased: bool, fw': Fw, t: Tables, t1: Tables, t': Tables)
    requires AttemptRows(r.Applied?, recorded, c, t, t1) && if r.Applied? then t' == t1 else RolledBackRows(r, erased, c.id, t1, t')
    requires !r.Rejected? && (recorded ==> mapped) && (erased ==> r.Removed? && Absent(fw', c.id))
    ensures DatabaseReport(c, r, mapped, recorded, erased, fw', t, t')
  {
  }

  lemma CreatedRows(now: Snapshot, c: Container, quarantineFirst: bool, fw: Fw, t: Tables, fw': Fw, t': Tables)
    requires Created(now, c, quarantineFirst, fw, t, fw', t')
    ensures CreationRows(Applied, true, false, c, t, t')
  {
  }

  ghost predicate StartsFrom(fw: Fw, log: seq<Fw>, log0: seq<Fw>, id: string, quarantineFirst: bool)
  {
    var f0 := FloorInstalled(fw, id, quarantineFirst);
    && log != [] && log[|log| - 1] == fw
    && ((log0 == log && f0 == fw) || log0 == log + [f0])
  }

  lemma SameDetailsSamePlaces(fw: Fw, id: string, a: seq<RuleDetails>, b: seq<RuleDetails>)
    requires (forall rd :: rd in a ==> rd in b) && Replaceable(fw, id, Compiled(b))
    ensures Replaceable(fw, id, Compiled(a))
  {
    CompiledContents(a);
    CompiledContents(b);
    forall q | q in Compiled(a) ensures q in Compiled(b) {
      var i :| 0 <= i < |a| && q in RulesOf(a[i]);
      assert a[i] in b;
      var j :| 0 <= j < |b| && b[j] == a[i];
      assert q in RulesOf(b[j]);
    }
  }

  lemma UnbuildableIsNotInstallable(now: Snapshot, before: Tables, self: Self, addrs: map<string, Key>, p: PolicyLabel, fw: Fw)
    ensures Installable(now, before, self, addrs, p, fw) ==> Buildable(now, before, self, addrs, p)
  {
  }

  lemma BuiltIsInstallable(now: Snapshot, before: Tables, self: Self, addrs: map<string, Key>, p: PolicyLabel,
                           rds: seq<RuleDetails>, est: set<string>, after: Tables, fw: Fw)
    requires Built(now, before, self, addrs, p, rds, est, after)
    ensures Installable(now, before, self, addrs, p, fw) <==> Replaceable(fw, self.id, Compiled(rds))
  {
    if Installable(now, before, self, addrs, p, fw) {
      var rds', est', after' :| Built(now, before, self, addrs, p, rds', est', after') && Replaceable(fw, self.id, Compiled(rds'));
      SameDetailsSamePlaces(fw, self.id, rds, rds');
    }
  }

  /** What a built policy can be relied on for. */
  lemma BuiltIsUsable(now: Snapshot, before: Tables, self: Self, addrs: map<string, Key>, p: PolicyLabel,
                      rds: seq<RuleDetails>, est: set<string>, after: Tables, fw: Fw)
    requires Built(now, before, self, addrs, p, rds, est, after) && ParsedPolicy(p)
    requires DockerIDs(now) && RowsSound(before) && References(after) && ValidID(self.id) && ValidKeys(addrs) && self.id in before.containers
    ensures AllWellPlaced(self.id, rds) && RowsSound(after) && PeersExist(after, self.id, est)
    ensures Installable(now, before, self, addrs, p, fw) <==> Replaceable(fw, self.id, Compiled(rds))
  {
    BuiltIsWellPlaced(now, before, self, addrs, p, rds, est, after);
    BuiltPeersExist(now, before, self, addrs, p, rds, est, after);
    BuiltIsInstallable(now, before, self, addrs, p, rds, est, after, fw);
  }

  lemma AppliedIsCreated(now: Snapshot, c: Container, quarantineFirst: bool, fw: Fw, t: Tables, fw': Fw, t': Tables, rds: seq<RuleDetails>)
    requires c.networks.Some? && ValidScope(c.scopeLabel, c.project, c.networks.value)
    requires exists est, after ::
               && Built(now, MetadataReplaced(t, c.id, SelfOf(c).name, c.service, PolicyKeys(c)), SelfOf(c),
                        Collected(SelfOf(c).networks), c.policy, rds, est, after)
               && t' == EstAdded(after, c.id, est)
    requires fw' == PolicyReplaced(Remapped(FloorInstalled(fw, c.id, quarantineFirst), c.id, PolicyKeys(c)), c.id, Compiled(rds))
    ensures Created(now, c, quarantineFirst, fw, t, fw', t')
  {
  }

  lemma ProgressContinues(f0: Fw, log0: seq<Fw>, f1: Fw, log1: seq<Fw>, f2: Fw, log2: seq<Fw>, id: string, keys: set<Key>,
                          authoritative: bool, rds: seq<RuleDetails>)
    requires Progress(f0, log0, f1, log1, id, keys, true, false, [])
    requires if authoritative then f2 == PolicyReplaced(f1, id, Compiled(rds)) && log2 == log1 + [f2] && Enabled(f1, Replace(id, rds))
             else f2 == f1 && log2 == log1
    ensures Progress(f0, log0, f2, log2, id, keys, true, authoritative, rds)
  {
  }

  /** The batches of an installation. */
  lemma ProgressRan(f0: Fw, log0: seq<Fw>, f1: Fw, log1: seq<Fw>, id: string, keys: set<Key>, mapped: bool, authoritative: bool,
                    rds: seq<RuleDetails>) returns (steps: seq<Step>)
    requires Progress(f0, log0, f1, log1, id, keys, mapped, authoritative, rds)
    requires log0 != [] && log0[|log0| - 1] == f0 && IsContainerChain(f0, id)
    ensures Ran(log0, log1, steps) && forall s :: s in steps ==> s == Remap(id, keys) || s == Replace(id, rds)
  {
    var g := Remapped(f0, id, keys);
    var first := if log1 == log0 + [g] + (if authoritative then [f1] else []) then [Remap(id, keys)] else [];
    steps := first + if authoritative then [Replace(id, rds)] else [];
  }

  lemma UndoingRan(f1: Fw, log1: seq<Fw>, f2: Fw, log2: seq<Fw>, id: string, r: Ending) returns (steps: seq<Step>)
    requires log1 != [] && log1[|log1| - 1] == f1 && IsContainerChain(f1, id)
    requires f2 == Undone(f1, id, r) && log2 == if r.Quarantined? || r.Removed? then log1 + [f2] else log1
    ensures Ran(log1, log2, steps)
    ensures forall s :: s in steps ==> if r.Removed? then s == Remove(id) else s.Replace? && s.id == id
  {
    var none: seq<RuleDetails> := [];
    assert Compiled(none) == [];
    steps := if r.Quarantined? then [Replace(id, none)] else if r.Removed? then [Remove(id)] else [];
  }

  lemma FloorRan(log: seq<Fw>, log0: seq<Fw>, id: string, quarantineFirst: bool) returns (steps: seq<Step>)
    requires log != [] && StartsFrom(log[|log| - 1], log, log0, id, quarantineFirst) && ValidID(id)
    ensures Ran(log, log0, steps) && log0[|log0| - 1] == FloorInstalled(log[|log| - 1], id, quarantineFirst)
    ensures forall s :: s in steps ==> s == Floor(id, quarantineFirst)
  {
    steps := if log0 == log then [] else [Floor(id, quarantineFirst)];
  }

  /** The batches of an attempt. */
  lemma AttemptRan(c: Container, quarantineFirst: bool, log: seq<Fw>, f0: Fw, log0: seq<Fw>, f1: Fw, log1: seq<Fw>, mapped: bool,
                   authoritative: bool, rds: seq<RuleDetails>) returns (steps: seq<Step>)
    requires log != [] && StartsFrom(log[|log| - 1], log, log0, c.id, quarantineFirst) && ValidID(c.id)
    requires f0 == FloorInstalled(log[|log| - 1], c.id, quarantineFirst)
    requires Progress(f0, log0, f1, log1, c.id, PolicyKeys(c), mapped, authoritative, rds)
    ensures Ran(log, log1, steps) && forall s :: s in steps ==> Installs(c, quarantineFirst, s)
  {
    var floor := FloorRan(log, log0, c.id, quarantineFirst);
    var middle := ProgressRan(f0, log0, f1, log1, c.id, PolicyKeys(c), mapped, authoritative, rds);
    RanOn(log, log0, log1, floor, middle);
    steps := floor + middle;
  }

  lemma ProgressEnd(f0: Fw, log0: seq<Fw>, f1: Fw, log1: seq<Fw>, id: string, keys: set<Key>, mapped: bool, authoritative: bool,
                    rds: seq<RuleDetails>)
    requires Progress(f0, log0, f1, log1, id, keys, mapped, authoritative, rds) && log0 != [] && log0[|log0| - 1] == f0
    ensures log1 != [] && log1[|log1| - 1] == f1
  {
  }

  lemma FloorIsGood(fw: Fw, log: seq<Fw>, log0: seq<Fw>, id: string, quarantineFirst: bool)
    requires StartsFrom(fw, log, log0, id, quarantineFirst) && ValidID(id) && AllGood(log)
    ensures var f0 := FloorInstalled(fw, id, quarantineFirst); Good(f0) && IsContainerChain(f0, id) && (quarantineFirst ==> Shut(f0, id))
  {
    assert Good(log[|log| - 1]);
    FloorKeepsGood(fw, id, quarantineFirst);
  }

  lemma NothingHappened(c: Container, quarantineFirst: bool, interruption: Interruption, rds: seq<RuleDetails>, fw: Fw, log: seq<Fw>, t: Tables)
    requires log != []
    ensures EndReport(c, quarantineFirst, interruption, Rejected, false, false, rds, fw, fw)
    ensures LogReport(c, quarantineFirst, interruption, Rejected, false, -1, rds, [], fw, log, log)
    ensures DatabaseReport(c, Rejected, false, false, false, fw, t, t)
  {
  }

  lemma AttemptReported(c: Container, quarantineFirst: bool, mapped: bool, authoritative: bool, rds: seq<RuleDetails>, fw: Fw, log: seq<Fw>,
                        log0: seq<Fw>, f1: Fw, log1: seq<Fw>) returns (steps: seq<Step>)
    requires StartsFrom(fw, log, log0, c.id, quarantineFirst) && ValidID(c.id) && AllGood(log)
    requires Progress(FloorInstalled(fw, c.id, quarantineFirst), log0, f1, log1, c.id, PolicyKeys(c), mapped, authoritative, rds)
    requires IsContainerChain(f1, c.id)
    ensures AttemptReport(c, quarantineFirst, mapped, authoritative, rds, steps, fw, log, f1, log1)
  {
    var f0 := FloorInstalled(fw, c.id, quarantineFirst);
    FloorIsGood(fw, log, log0, c.id, quarantineFirst);
    if quarantineFirst { AttemptIsClosed(log, f0, log0, f1, log1, c.id, PolicyKeys(c), mapped, authoritative, rds); }
    steps := AttemptRan(c, quarantineFirst, log, f0, log0, f1, log1, mapped, authoritative, rds);
    ProgressEnd(f0, log0, f1, log1, c.id, PolicyKeys(c), mapped, authoritative, rds);
  }

  lemma LogReported(c: Container, quarantineFirst: bool, interruption: Interruption, r: Ending, mapped: bool, authoritative: bool,
                    rds: seq<RuleDetails>, steps1: seq<Step>, fw: Fw, log: seq<Fw>, f1: Fw, log1: seq<Fw>, f2: Fw, log2: seq<Fw>)
    returns (steps: seq<Step>)
    requires AttemptReport(c, quarantineFirst, mapped, authoritative, rds, steps1, fw, log, f1, log1) && AllGood(log2)
    requires f2 == Undone(f1, c.id, r) && log2 == if r.Quarantined? || r.Removed? then log1 + [f2] else log1
    requires !r.Rejected? && (if r.Applied? then authoritative else RolledBackAs(r, interruption))
    ensures LogReport(c, quarantineFirst, interruption, r, mapped, if authoritative then |log1| - 1 else -1, rds, steps, fw, log, log2)
  {
    var last := UndoingRan(f1, log1, f2, log2, c.id, r);
    RanOn(log, log1, log2, steps1, last);
    steps := steps1 + last;
    UndoneIsShut(f1, c.id, r);
    if quarantineFirst { StaysClosed(log, log1, f2, log2, c.id, if authoritative then |log1| - 1 else -1); }
    else { CreationIsUnnoticed(c, interruption, log, log2, steps); }
  }

  lemma StaysClosed(before: seq<Fw>, log1: seq<Fw>, f2: Fw, log2: seq<Fw>, id: string, except: int)
    requires before <= log1 && Closed(before, log1, id, except)
    requires log2 == log1 || (log2 == log1 + [f2] && Shut(f2, id))
    ensures Closed(before, log2, id, except)
  {
    forall i | |before| <= i < |log2| && i != except ensures Shut(log2[i], id) {
      if i < |log1| { assert log2[i] == log1[i]; }
    }
  }

  /** The reports of a creation that was attempted, and rolled back if it failed. */
  lemma CreationReported(c: Container, quarantineFirst: bool, interruption: Interruption, r: Ending, mapped: bool, recorded: bool,
                         erased: bool, authoritative: bool, rds: seq<RuleDetails>, steps1: seq<Step>, fw: Fw, log: seq<Fw>, t: Tables,
                         f1: Fw, log1: seq<Fw>, t1: Tables, f2: Fw, log2: seq<Fw>, t2: Tables) returns (steps: seq<Step>)
    requires AttemptReport(c, quarantineFirst, mapped, authoritative, rds, steps1, fw, log, f1, log1) && AllGood(log2)
    requires f2 == Undone(f1, c.id, r) && log2 == if r.Quarantined? || r.Removed? then log1 + [f2] else log1
    requires !r.Rejected? && (if r.Applied? then authoritative else RolledBackAs(r, interruption))
    requires AttemptRows(r.Applied?, recorded, c, t, t1) && if r.Applied? then t2 == t1 else RolledBackRows(r, erased, c.id, t1, t2)
    requires (recorded ==> mapped) && (erased ==> r.Removed? && Absent(f2, c.id))
    ensures EndReport(c, quarantineFirst, interruption, r, mapped, authoritative, rds, fw, f2)
    ensures LogReport(c, quarantineFirst, interruption, r, mapped, if authoritative then |log1| - 1 else -1, rds, steps, fw, log, log2)
    ensures DatabaseReport(c, r, mapped, recorded, erased, f2, t, t2)
  {
    CreationLeaves(FloorInstalled(fw, c.id, quarantineFirst), f1, f2, c.id, PolicyKeys(c), mapped, authoritative, rds, r);
    steps := LogReported(c, quarantineFirst, interruption, r, mapped, authoritative, rds, steps1, fw, log, f1, log1, f2, log2);
    DatabaseReported(c, r, mapped, recorded, erased, f2, t, t1, t2);
  }

  /** Without quarantine first, no packet notices that a creation began. */
  lemma CreationIsUnnoticed(c: Container, interruption: Interruption, log: seq<Fw>, log': seq<Fw>, steps: seq<Step>)
    requires Ran(log, log', steps) && AllGood(log') && forall s :: s in steps ==> Belongs(Create(c, false, interruption), s)
    ensures FloorsUnnoticed(log, log', steps)
  {
    forall i | 0 <= i < |steps| && steps[i].Floor? ensures !steps[i].quarantineFirst { assert steps[i] in steps; }
    FloorsAreUnnoticed(log, log', steps);
  }

  /** What a creation leaves behind, however far it came and however it was rolled back. */
  lemma CreationLeaves(f0: Fw, f1: Fw, f2: Fw, id: string, keys: set<Key>, mapped: bool, authoritative: bool, rds: seq<RuleDetails>, r: Ending)
    requires f1 == Reached(f0, id, keys, mapped, authoritative, rds) && IsContainerChain(f1, id) && f2 == Undone(f1, id, r)
    requires authoritative ==> mapped
    ensures LeavesBehind(r, mapped, f2, id, keys)
  {
    if r.Quarantined? { QuarantineLeavesOneDrop(f1, id); }
    DeleteIsCompleteAndLocal(f1, id);
  }

  /** With quarantine first, every new state but the authoritative policy is shut. */
  lemma AttemptIsClosed(before: seq<Fw>, f0: Fw, log0: seq<Fw>, f1: Fw, log1: seq<Fw>, id: string, keys: set<Key>, mapped: bool,
                        authoritative: bool, rds: seq<RuleDetails>)
    requires (log0 == before || log0 == before + [f0]) && Good(f0) && IsContainerChain(f0, id) && Shut(f0, id)
    requires Progress(f0, log0, f1, log1, id, keys, mapped, authoritative, rds)
    ensures Closed(before, log1, id, if authoritative then |log1| - 1 else -1)
  {
    RemapKeepsShut(f0, id, keys);
  }

  lemma UndoneIsShut(f1: Fw, id: string, r: Ending)
    requires IsContainerChain(f1, id)
    ensures r.Quarantined? || r.Removed? ==> Shut(Undone(f1, id, r), id)
  {
    if r.Quarantined? { QuarantineLeavesOneDrop(f1, id); }
  }

  lemma EmptyPolicyKeepsGood(fw: Fw, id: string)
    requires Good(fw) && IsContainerChain(fw, id)
    ensures Good(PolicyReplaced(fw, id, []))
  {
    var none: seq<RuleDetails> := [];
    assert Compiled(none) == [];
    ReplaceKeepsGood(fw, id, none);
  }
}
