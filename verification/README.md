# Whalewall policy engine: a verified model

Whalewall turns labels of Docker containers into nftables rules. Every managed
container has one chain, named by its ID and ending in an unconditional drop; a
verdict map sends each container address to its chain; rules between two
containers are installed in both chains under crossed owner tags; and a small
SQLite database remembers which addresses, aliases and pending rules belong to
whom. This project models that engine in Dafny and proves that it fails closed.

The modules follow the program:

- `Bytes`, `Intervals`, `Nft`, `Compiler` - the rule machine and the compiler
  from declarative rules to register programs, with the sets of addresses and
  ports. Header offsets follow section 3.1 of RFC 791 (addresses at octets 12 and
  16) and section 3.1 of RFC 9293 and RFC 768 (ports at 0 and 2).
- `Config`, `Scope` - validation, normalisation and the text form of ports; which
  endpoints are managed and which addresses are dispatched.
- `Names`, `Chains` - chain names, the committed ruleset, and the evaluation of
  chains with jump, goto and return.
- `Policy`, `Invariants`, `Runs` - the effect of each committed batch as a
  function, the invariants of every committed state, and whole runs.
- `Kernel`, `Engine`, `Mappings`, `Deletion`, `Base` - the operations as they run:
  a connection queues commands against the committed ruleset and flushes them all
  or nothing, and any call may fail. Each operation is proved to commit exactly
  its function of `Policy`, or nothing.
- `Store` - the ownership database: tables, constraints and transactions.
- `Generate`, `Outputs`, `Ports`, `Build` - from Docker's answers and the database
  to the rules of a policy; `Destinations` says which containers an edge can join.
- `Traffic`, `Publishing` - which packets generated rules decide, in terms of header
  fields, and what that makes of the published ports.
- `Manager` - creation, rollback, deletion and repair put together, under
  arbitrary failures and interruptions.
- `Order`, `Independence`, `Canonical`, `Relationships`, `Completion`, `Confluence`,
  `Packets`, `Admission`, `Example` - what the firewall and the database hold after
  any history of processed containers, when every order of processing is possible,
  exactly when all orders end alike, and what is let through in the end, in terms of
  the rules that the containers' labels list.
- `Tracker`, `Lanes`, `Workers` - the concurrency protocols as interleaved steps
  over any number of operations, containers and lanes: the tracker, the event
  lanes, and the handlers and workers behind them.

A failure is an entry of the script that every call consults; all statements hold
for every script, and where a call is said to succeed "without faults" the script
is empty. `Good` is the invariant of the firewall state: every map entry is a goto
to an existing canonical chain, every container chain contains its drop and only
tests with drop or return, every rule under another container's tag belongs to an
edge all of whose rules are present in both chains, and the main chain is in
normal form.

One promise does not hold for all inputs: that the final rules do not depend on the
order of processing. A rule finds its destination by the names Docker lists and the
Compose service label (create.go:915-942), while a starting container looks for
stored rules under its own name and service (db.go:89-96), and the two disagree. A
rule may match a container that does not look for it: by a link name, or as a lone
slash by an empty service label. And a container may take up a rule that did not
match it: by a service label that begins with a slash, or by its own name if Docker
does not list it under that. `Order.MatchedNamesAreAliases` and `Order.AliasesMatch`
show that these are all the cases. In each of them the edge is there in the end only
if the right one of the two containers was processed last; `Example.GapsByExample`
has an input for every case, at the level of whole histories.
`Confluence.OrderIndependentExactly` gives the exact condition: all orders end alike
if and only if whatever such a rule gives on one side is also given by another rule.
In particular they do when no rule hits a gap (`Confluence.OrderDoesNotMatter`).

Another holds only outside shutdown, as intended: a handler that gives up because
the manager is stopping leaves its operation running, and reconciliation may begin
beside it (`Workers.OverlapInShutdown`); at any other time it cannot
(`Workers.ReconcileRunsAlone`).

## Model

| member | source | states |
|---|---|---|
| `Bytes.BigRoundTrip` | create.go:1904-1934 | a number written in network byte order on enough bytes reads back as itself |
| `Bytes.PrecedesIsLess` | create.go:1919-1934 | the kernel's byte-by-byte comparison of equally long network-order data is numeric comparison |
| `Intervals.SortIntervals` | create.go:1838-1845 | the in-place sort leaves a sorted permutation of the configured intervals |
| `Intervals.MergeIntervals` | create.go:1838-1884 | sort and merge give a canonical list (sorted, pairwise separated by a gap) of exactly the configured union, up to the top of the 16 or 32 bit range without overflow |
| `Intervals.CanonicalUnique` | create.go:1838-1884 | two canonical lists with the same union are the same list |
| `Intervals.MergedIsCanonicalUnion` | create.go:1838-1884 | the reference merge is canonical and covers a value exactly when some input does |
| `Intervals.MergedDependsOnUnionOnly` | create.go:1838-1884 | inputs with equal unions merge to equal outputs, whatever their order, overlap or duplicates |
| `Intervals.KeysIncreasing` | create.go:1757-1774 | the emitted start and exclusive-end keys strictly increase, and the last end is left out at the top of the range |
| `Intervals.KeysDenoteUnion` | create.go:1757-1774 | "the greatest key not above x is a start" holds exactly when x lies in an interval |
| `Intervals.MergedKeysDenoteConfiguredUnion` | create.go:1722-1834 | the interval set looked up by the kernel contains exactly the configured addresses or ports, including an open-ended top |
| `Nft.ExecAppend` | create.go:1620-1720 | a rule's expressions run one group after the other, stopping at the first that does not match |
| `Nft.SafeOwnedDropIsSound` | base.go:422-451 | a rule the repair recognises as a safe owned drop drops a packet or leaves it alone, on every packet |
| `Nft.PlainRuleDropsOrReturns` | create.go:57-69 | a rule made of tests and a final drop or return never accepts, jumps, queues or changes the packet |
| `Nft.RulesEqualIsEquality` | rules.go:15-98 | for rules without anonymous sets, which are the ones searched for, the comparison is equality |
| `Config.NormalizeConfig` | config.go:491-539 | the first invalid verdict of the published ports, then the first invalid rule is the error; otherwise one rule for each name of each listed rule, in their order, that agrees with the listed rule in everything but whom it names |
| `Config.NormalFormContents` | config.go:516-539 | the rules in force are exactly the listed ones, each under one of its names |
| `Config.ValidRulesExactly` | config.go:541-607 | a rule is accepted exactly if it gives at most one kind of destination, properly, says something at all, names a network for containers, a protocol for ports and ports for a protocol, and no unsupported verdict |
| `Config.NormalizationKeepsDestinations` | config.go:511-539 | expansion keeps the ordered flattening of the destination names, each in a rule of its own |
| `Config.NormalizationIsIdempotent` | config.go:516-539 | a normalised list validates again and normalises to itself |
| `Config.NormalizedRulesSurvivePersistence` | create.go:866-875 | dropping the presence flags in a stored row neither invalidates a normalised rule nor loses anything a rule is generated from or that says whom it is for |
| `Config.UnmarshalPorts` | config.go:422-481 | a text is accepted exactly when it is a port or two ordered ports around one dash, and the value is in 1..65535 |
| `Config.DenotesUnique` | config.go:422-481 | a port text denotes at most one value |
| `Config.PortTextRoundTrip` | config.go:411-481 | a printed port value is accepted and reads back as itself and nothing else |
| `Compiler.SetDenotesUnion` | create.go:1722-1834 | the anonymous set, plain or interval, holds exactly the configured values |
| `Compiler.RangeGuard` | create.go:1913-1934 | the gte/lte pair on a loaded header field matches exactly the numeric range, and a missing field never matches |
| `Compiler.StateGuard` | create.go:2012-2034 | the mask-and-compare of the connection state matches exactly the states the constant names |
| `Compiler.CompiledRuleMeansConfig` | create.go:1620-1720 | compiler correctness: on every packet the register program reaches its verdict exactly when own address, peers, protocol, ports and connection state match the declarative rule |
| `Compiler.ReplyMirrorsForward` | create.go:1501-1548 | the established rule matches a packet exactly when the forward rule, apart from state, matches the packet with addresses and ports exchanged; it never admits a new connection |
| `Traffic.DescriptionDecides` | create.go:1501-1720 | the rules of a description decide, by header field: in its chain the new and (unless it drops) the ongoing packets between the own address and the peers on its ports, in the chain for replies their way back, and no others; all with its verdict |
| `Compiler.ValidDetailsCompile` | create.go:1501-1548 | a valid description compiles, each rule going into the source's or the reply's chain under the tag that goes with it |
| `Compiler.GeneratedRulesArePlain` | create.go:1694-1712 | no generated rule accepts, jumps, queues or writes |
| `Compiler.LocalhostDropIsSafe` | create.go:1090-1128 | the localhost drop compiles to one rule of the main chain that the base repair recognises and keeps |
| `Traffic.LocalhostDropDrops` | create.go:1090-1128 | it drops exactly the new connections from 127.0.0.1 to the host port on the protocol, host port 0 included |
| `Names.ChainNameDeterminesID` | create.go:627-642 | a chain name is canonical for an ID exactly when it is the prefix and that 64-digit ID |
| `Names.ChainNameInjective` | create.go:944-948 | different containers have different chains |
| `Chains.DispatchRefinesSpec` | base.go:57-103 | dispatch refinement: the walk ends within one nested chain and equals "source's chain alone, else destination's chain, else the owned drops"; never accept or queue |
| `Chains.AllowedPacketsContinueInCaller` | create.go:57-69 | from a hook that begins with the jump, a packet that is not dropped goes on to the hook's own rules |
| `Chains.DropStopsTheChain` | create.go:2044-2057 | a chain that contains the unconditional drop never falls off its end |
| `Chains.DropAtHeadQuarantines` | create.go:669-675 | with the drop at the head, every packet dispatched to the chain is dropped |
| `Chains.LogSplitIsEquivalent` | create.go:1519-1548 | the three-rule logged form and the two-rule form decide every packet alike, in front of any further rules |
| `Chains.ReturnsFirst` | create.go:228-259 | rules that only return, in front of others, let a packet through exactly if any of them matches it |
| `Chains.ReturnsCommute` | create.go:228-259 | so neither their order nor their number changes the verdict on any packet |
| `Policy.DispatchedPacketsAreDecided` | create.go:328-402 | in a good state every packet from or to a mapped address is explicitly dropped or returned |
| `Policy.HalfEndpoints` | create.go:1249-1254 | the two endpoints of the edge behind a foreign rule are the chain's container and the rule's tag |
| `Invariants.FloorKeepsGood` | create.go:646-689 | installing the floor keeps the invariants and puts the drop into the chain |
| `Invariants.FloorIsUnnoticed` | create.go:676-678 | without quarantine first, no packet is treated differently because of the floor |
| `Invariants.ReplaceKeepsGood` | create.go:328-402 | the authoritative replacement keeps every map entry, drop and whole edge |
| `Invariants.RemapKeepsGood` | create.go:418-503 | replacing addresses, with displacement of their old owners, keeps the invariants |
| `Invariants.DeleteKeepsGood` | delete.go:231-345 | deletion keeps the invariants; an edge is cut in both chains |
| `Invariants.QuarantineLeavesOneDrop` | create.go:404-412 | quarantine leaves exactly the drop, no rule tagged with the ID elsewhere, and the map as it was |
| `Invariants.AddressReuseIsAtomic` | create.go:418-567 | the new map is exactly the kept old entries plus the desired keys; displaced chains are drop-only and keep their other keys; none of their rules survives elsewhere; other rules keep their order |
| `Invariants.DeleteIsCompleteAndLocal` | delete.go:231-364 | chain, keys and tagged rules of the ID are gone; every other mapping and rule stays in order |
| `Kernel.BatchKeepsHandles` | mock-nftables.go:439-558 | no batch gives two rules of a chain the same handle, so deletion by handle is exact |
| `Kernel.Conn.Flush` | mock-nftables.go:614-653 | a batch is committed as a whole, or the ruleset is left as it was |
| `Engine.ReplaceContainerPolicy` | create.go:328-402 | on success the committed state is the specified replacement, on failure it is unchanged; without faults it succeeds exactly when the own chain exists, owned chains are regular and every target chain exists |
| `Engine.EnsureContainerDropPolicy` | create.go:646-689 | the floor: a new chain with its drop alone, or a drop at the head of the old rules where it is missing (or not first, with quarantine first); nothing else changes, and without quarantine first a chain that holds its drop anywhere is left as it is, without a flush |
| `Engine.DeleteMatching` | delete.go:350-364 | deleting by handle leaves exactly the rules that are not selected, in order |
| `Engine.GroupByChain` | create.go:360-363 | rules are grouped by chain in generation order |
| `Mappings.ScanMappings` | create.go:431-461 | the scan fails on a non-canonical entry; otherwise it finds the keys to delete, the keys seen, and the displaced chains with their IDs |
| `Mappings.ReadableExactly` | create.go:617-623 | an entry is accepted exactly if it is a goto to the chain of a container ID |
| `Mappings.QuarantineDisplacedContainerPolicies` | create.go:505-567 | every displaced chain becomes its single drop and every rule of a displaced ID goes, or the call fails |
| `Mappings.ReplaceContainerAddressMappings` | create.go:418-503 | on success the committed state is the specified remap, in one batch; on any error it is unchanged; without faults success has an exact condition |
| `Deletion.DeleteFirewallState` | delete.go:231-325 | on success exactly the specified deletion is committed, on any error nothing is; without faults success has an exact condition |
| `Base.RepairReachesNormalForm` | base.go:363-420 | a repair yields jump-first hooks and dispatchers-first main chain, keeps container chains, map and foreign chains, and changes nothing the second time |
| `Base.RepairKeepsSafeDrops` | base.go:385-420 | every safe drop of the main chain survives a repair |
| `Base.RepairKeepsHookRules` | base.go:363-383 | a repair takes no rule out of a hook but copies of its own jump, and puts the jump before the others |
| `Base.RepairKeepsGood` | base.go:105-282 | a repair keeps a good state good and makes a state without containers good |
| `Base.EveryHookIsGuarded` | base.go:105-282 | after a repair, a packet that Whalewall drops is dropped whether it is forwarded, comes in or goes out |
| `Base.DispatchersIntact` | base.go:385-410 | the counts and positions tested hold exactly for a main chain in normal form |
| `Base.EnsureJumpAtHead` | base.go:363-383 | the jump ends up first and once, other rules in order; an intact chain queues nothing |
| `Base.EnsureDispatchersAtHead` | base.go:385-420 | source dispatcher, destination dispatcher, then the safe drops in order; an intact chain queues nothing |
| `Base.CreateBaseRules` | base.go:105-282 | on success exactly the repaired form is committed, else nothing; an intact base keeps even its handles; without faults success has an exact condition |
| `Runs.FreshBaseIsGood` | base.go:105-282 | a repaired base without containers satisfies the invariants, so runs begin well |
| `Runs.RunsStayGood` | create.go:328-567 | every committed state of every run of any containers' batches and base repairs satisfies the invariants |
| `Runs.EveryRunIsSafe` | create.go:328-689 | in every committed state of every run each mapped address leads to an existing chain with its owner's drop, and a dispatched packet is dropped or returned, never undecided |
| `Runs.DropStaysUntilRemoved` | create.go:646-689 | no operation on another container ever removes a container's drop |
| `Runs.QuarantineFirstDropsEverything` | create.go:673-682 | with quarantine first, every packet dispatched to the container is dropped in every committed state up to the authoritative policy |
| `Scope.SplitIsExact` | network_scope.go:25-25 | the label's parts are exactly what is between its commas |
| `Scope.EntriesAreTrimmedParts` | network_scope.go:25-30 | its entries are those parts, each without the blanks around it and nothing else |
| `Scope.BlanksDoNotMatter` | network_scope.go:25-30 | labels that differ only in blanks around the parts select the same networks and are valid alike |
| `Scope.FindNetworkExactly` | create.go:899-913 | an exact network name wins over the one with the project's prefix, and no other name is found |
| `Scope.AcceptedLabels` | network_scope.go:25-60 | a label is accepted exactly if each entry names an attached network other than the host's, with settings, and no two name the same Docker network |
| `Scope.ResolveManagedNetworks` | network_scope.go:19-62 | a label is accepted exactly when its entries resolve to usable, pairwise distinct Docker networks, and then selects those; no label selects all |
| `Scope.CollectManagedIPv4Addresses` | network_scope.go:76-108 | every usable IPv4 key is returned, malformed endpoints or not; the result is clean exactly when all endpoints are IPv4 only |
| `Scope.CollectedExactly` | network_scope.go:76-108 | each usable endpoint contributes its address, in four octets of network byte order |
| `Scope.ValidateScopedAddressUniqueness` | network_scope.go:143-173 | accepted exactly when endpoints that share an address with a selected one are the same Docker network |
| `Scope.PolicyScope` | create.go:112-133 | a valid explicit scope selects exactly its endpoints, any scope error falls back to all attached ones, and the usable keys are returned in every case |
| `Scope.ResolveValidManagedNetworks` | network_scope.go:113-130 | a peer's scope is valid exactly when its own policy scope is, with the same endpoints |
| `Scope.ScopeIsExact` | network_scope.go:143-173 | the dispatched keys are exactly the requested endpoints' addresses, an unselected endpoint shares one only on the same Docker network, and after a scope error they are all usable addresses |
| `Store.StmtKeepsIntegrity` | database/schema.sql:1-37 | no accepted statement breaks a foreign key or the uniqueness of names |
| `Store.ReplaceContainerMetadata` | db.go:23-51 | name, addresses (taking over reused ones) and aliases are replaced exactly; it is refused only when another container has the name |
| `Store.RecordingIsLocal` | db.go:13-51 | afterwards the addresses and aliases of the container are exactly its own, those of others stay unless reused, and relationships and waiting rows are untouched |
| `Store.ResetContainerPolicy` | db.go:53-61 | exactly the container's waiting rows and the relationships it is the source of are forgotten |
| `Store.ResettingIsLocal` | db.go:53-61 | no other row is touched, in particular none of which the container is the target |
| `Store.FinalizeContainerPolicy` | db.go:75-87 | the relationships are added and committed, or nothing is |
| `Store.DeleteContainer` | db.go:98-117 | every trace of the container goes; no foreign key ever refuses it |
| `Store.DeletingIsLocal` | db.go:98-117 | no row mentions it any more, and every row that did not stays |
| `Store.RecordingKeepsAgreement` | create.go:283-322 | recording the metadata after the remap keeps the addrs table equal to the verdict map, including reused addresses |
| `Store.ErasingKeepsAgreement` | delete.go:294-343 | erasing the row after the firewall deletion keeps that agreement |
| `Generate.BestMatchesContents` | create.go:747-758 | the best matches are exactly the containers that match with a rank no other exceeds; none only if nothing matches |
| `Generate.ScanNames` | create.go:747-758 | the one-pass scan finds exactly the best matches |
| `Order.NamesOutrankServices` | create.go:915-942 | the best matches are all containers listed under the name, with or without a slash; if there is none, those of the Compose service of that name in the rule's project |
| `Order.OwnNamesMeet` | create.go:692-697 | a container that Docker lists as "/name" is matched by its name with and without the slash, and looks for rules under both |
| `Order.ServicesMeet` | db.go:89-96 | so does a Compose service within its project |
| `Generate.Examine` | create.go:759-832 | inspecting the matches decides as specified: refused, deferred, or the one viable container |
| `Build.ChosenDestinationIsSound` | create.go:747-838 | a rule resolves only to a running, enabled, validly scoped best match whose managed endpoint has the same non-empty network ID as the source's, or like it none and the same name |
| `Destinations.DestinationExactly` | create.go:759-862 | a rule waits exactly if every best match has disappeared or stopped; it resolves exactly if all others are enabled and validly scoped and exactly one of them is on the source's Docker network; anything else is refused |
| `Build.AmbiguityIsRefused` | create.go:827-832 | two viable best matches are an error, never a choice |
| `Outputs.PopulateOutputRules` | create.go:701-883 | every rule is filled from the snapshot and the processed containers, and exactly its row is stored |
| `Outputs.CreateOutputRules` | create.go:1208-1278 | on every packet and in every chain, the generated rules let through exactly what the filled rules speak of: from the own address on the rule's network (on any, if it names none) to the rule's addresses and ports, and the answers |
| `Outputs.CreateWaitingContainerRules` | create.go:1307-1445 | exactly the rows stored under one of the container's names that pass every identity check become edges, with their sources recorded; each lets through exactly the rule's traffic from the source's address to the container's on the network, and the answers |
| `Destinations.TakenUpExactly` | create.go:1345-1437 | a row becomes an edge exactly if it is valid, was written for this container or is open and of no other project, and both containers manage the Docker network it was written for with IPv4 addresses |
| `Destinations.ResolvedRowIsNotSkipped` | create.go:1356-1385 | a row that was resolved to this container is never passed over in silence |
| `Destinations.ForeignRowIsSkipped` | create.go:1349-1363 | a valid row for another container or project never makes the start fail |
| `Ports.GatewayNetworkName` | create.go:1172-1204 | Docker's gateway endpoint among the attached networks, an error for malformed endpoints or if there is none |
| `Ports.PrimaryIsFirstBest` | create.go:1172-1204 | that endpoint is the first, by name, of those with the highest priority among the gateway-capable |
| `Ports.GatewayExactly` | create.go:1172-1204 | it is an error if an endpoint has no IPv4 address or a gateway that is not IPv4, or if none has a gateway |
| `Ports.CreatePortMappingRules` | create.go:953-1165 | the nested loops generate, in order, the specified descriptions, whose verdict on every packet `Publishing.PublishedVerdict` states |
| `Ports.PublishedArePortRules` | create.go:1020-1155 | the port mapper generates only rules of the own chain and localhost drops of the main chain |
| `Ports.PublishedDropsAreExact` | create.go:982-1128 | a host port is kept from localhost exactly when local access is denied, a binding on it is reachable locally, and a managed network routes it: any attached one, or under an explicit scope Docker's gateway endpoint alone |
| `Publishing.PublishedVerdict` | create.go:982-1165 | network by network and port by port, the generated rules turn away new connections from the gateway to a locally bound port where local access is denied, and let in whoever external access, or local access for the gateway, is granted, with the answers; nothing else is decided |
| `Publishing.DecidedForSomePort` | create.go:1020-1165 | so a packet is let in or turned away only on account of some port on some network |
| `Publishing.LocalhostIsKeptOut` | create.go:1085-1128 | the rules for the main chain drop exactly the new connections from 127.0.0.1 to host ports that are to be kept from the host |
| `Build.BuiltIsWellPlaced` | create.go:206-272 | every description of a built policy is the container's own rule, a localhost drop, or a whole edge with crossed tags |
| `Build.BuiltPeersExist` | db.go:75-87 | the relationships of a built policy never violate a foreign key |
| `Build.BuildPolicy` | create.go:206-262 | generation yields exactly the waiting edges and output rules, none of which drops, and behind them the port rules in their order; without faults it succeeds exactly when the policy is buildable |
| `Manager.Manager.ReconcileContainerMetadata` | create.go:283-322 | the map is committed first, the metadata only after it; each all or nothing |
| `Manager.Manager.DeleteContainerRulesUntracked` | delete.go:231-345 | the database row goes only when the firewall holds no chain, mapping or rule of the ID; a failed flush changes nothing |
| `Manager.Manager.QuarantineContainerPolicy` | create.go:404-412 | a fresh connection commits the one-drop policy, or nothing |
| `Manager.Manager.RollBack` | create.go:155-193 | shutting down leaves everything, deletion removes everything, any other cause quarantines; only a removal that left nothing in the firewall erases the database row, and a quarantine at most forgets policy rows |
| `Manager.Manager.CreateContainerRules` | create.go:89-281 | the whole creation, however far it came: the firewall state it ends in and what it leaves behind, the batches it committed and which of them is the authoritative policy, with every other new state shut under quarantine first, and no packet noticing the floor without it; what became of the database; on success its effect with the port rules last and in order; and without faults its exact condition |
| `Manager.Manager.RepairBase` | manager.go:374-381 | a repair before reconciliation commits the repaired form or nothing |
| `Manager.Manager.InstallBase` | manager.go:117-124 | the first repair leads to a state that satisfies the invariants |
| `Manager.Manager.Serve` | manager.go:117-157 | over any operations, with any call failing, the committed firewall states are a run of the operations' batches and all good; the addrs table stays the address map as long as every committed change of the map was also recorded, which is always so without failed calls and name clashes; a container's row goes only at a moment when the firewall holds nothing of it |
| `Manager.ServedDropStays` | create.go:646-689 | while no operation served may remove a container, its drop is in every committed state |
| `Manager.WholeKeepsAgreement` | create.go:283-322 | an operation that recorded what it mapped, and erased what it removed, keeps the addrs table equal to the verdict map, however it ended |
| `Manager.AgreementStays` | create.go:283-322 | over any number of such operations the two are equal at every moment between them |
| `Manager.CreatedKeepsAgreement` | create.go:283-322 | a successful creation keeps the addrs table equal to the verdict map |
| `Manager.BuiltIsInstallable` | create.go:328-402 | whether the kernel takes a built policy depends on the generated set only, not on the order |
| `Manager.CreationLeaves` | create.go:155-193 | the states a creation can end in, however far it came and however it was rolled back |
| `Manager.AttemptIsClosed` | create.go:673-682 | with quarantine first, all its new states but the authoritative policy are shut |
| `Manager.AttemptRan` | create.go:89-281 | a creation commits its own batches one after the other: floor, map, policy |
| `Manager.LogReported` | create.go:155-193 | and behind them at most one of its rollback, so that the authoritative policy is the last new state or the last but one, and all others are shut under quarantine first |
| `Order.MatchedNamesAreAliases` | create.go:915-942 | for any listed names and service label, a name that matches is an alias the container looks for, except exactly for link names and for a lone slash with an empty label |
| `Order.AliasesMatch` | db.go:89-96 | for any listed names and service label, an alias matches where the project allows it, except exactly for a service label that begins with a slash and for an own name that is not listed |
| `Order.SameContributions` | create.go:1501-1548 | descriptions that differ only in log text generate the same rules up to log text |
| `Independence.OutputsAreCanonical` | create.go:1208-1278 | the output path generates exactly the own rules and the edges to processed containers |
| `Independence.ResolvedRowIsEdge` | create.go:1307-1445 | the row of a resolved rule, read by its destination, yields the same edge as the source's own generation, up to log text |
| `Independence.RowsInEffect` | create.go:1345-1366 | a row that its reader does not skip is that of a rule resolved to the reader, or strays from a rule that found nothing |
| `Independence.SymmetricExactly` | create.go:1208-1445 | two containers install the same rules between them, whichever is processed last, exactly if every rule that only one of them would install is given by the other for another reason |
| `Independence.MissedHitsGap` | create.go:701-838 | a rule that finds a container which does not look for it hits a link name, or a lone slash |
| `Independence.StrayHitsGap` | create.go:1345-1366 | a row taken up by a container that its rule did not find hits a service label with a slash, or an unlisted name |
| `Canonical.FrontIsIncident` | create.go:206-262 | processing a container generates, in front of its port rules, exactly its own rules and what it installs between itself and each processed container |
| `Canonical.ProcessingIsCanonical` | create.go:89-281 | processing a container, first or again, leads from the state after an order to the state after that order and the container |
| `Canonical.HistoryIsCanonical` | create.go:89-281 | after any history, the map, the rows, the main chain and every container's chain are determined: in front the own rules and, between each two containers, what the later one installed; then the port rules in order; then the drop |
| `Relationships.ProcessingRecordsPeers` | create.go:257-281 | processing a container leaves as its relationships exactly the processed containers it installed an edge to or from, and leaves those of others |
| `Completion.RowIsReadable` | create.go:1307-1445 | no stored row makes the start of a container fail, unless it strays from a rule that did not find it |
| `Completion.CreatableExactly` | create.go:89-281 | after any history, processing a container for the first time or again succeeds, if no call fails, exactly when it manages every network its rules name, no destination is refused and no stray row is in its way |
| `Completion.EveryOrderCompletes` | create.go:89-281 | such containers can be processed in every order and with every repetition |
| `Confluence.OrderIndependentExactly` | create.go:89-281 | order independence, exactly: histories that processed the same containers end with the same rules, up to log text, in every chain, if and only if whatever only one side of an edge installs is given by another rule as well |
| `Confluence.OrderDoesNotMatter` | create.go:89-281 | in particular, they do when no rule hits a gap between the names it matches and the names its destination looks for |
| `Confluence.AsymmetryShows` | create.go:1307-1445 | a rule that only one of two containers installs makes the two orders of processing them end differently |
| `Packets.ShapeDecides` | create.go:206-281 | in a container's chain, a packet that any rule in front matches is let through; else the port rules decide in their order, and the drop |
| `Packets.EveryPacketIsTreatedAlike` | base.go:57-103 | under the same condition, every packet is dropped or let through alike by the rulesets of two histories that processed the same containers |
| `Packets.CreatedDecidesAlike` | create.go:89-281 | what a successful creation commits is determined for every packet in every chain, and exactly so in the main chain, the map and the database, whatever the order of generation |
| `Admission.ChainVerdict` | create.go:206-281 | after any history, a container's chain lets through exactly what its own rules and its edges speak of, by address, protocol and port; decides the rest as the published ports say; and drops everything else |
| `Admission.DispatchedVerdict` | base.go:57-103 | through the dispatcher, that is what becomes of every packet from the container's addresses, and of those to them from none |
| `Admission.RulesAreInstances` | config.go:516-539 | the rules in force are the listed ones of the container's label, under each name |
| `Admission.NewConnectionsExactly` | create.go:701-1278 | a new connection passes exactly if a listed rule of the container's own label speaks of it, from its own address on the rule's network, to the rule's addresses or to the address there of a container that the rule names and that is linked, on its protocol and ports; or if the published ports let it in |
| `Example.OrderMattersExactly` | create.go:915-942 | in a world of an application, a database and an unmanaged container, the order matters exactly when the rule's name hits a gap |
| `Example.GapsByExample` | db.go:89-96 | one input for each gap, for which two histories end differently, and one for which all end alike |
| `Tracker.StepKeepsInv` | container/container.go:46-95 | every step of every operation keeps locks, entries and waiters consistent |
| `Tracker.AtMostOneLive` | container/container.go:50-73 | in every interleaving at most one operation per container is live |
| `Tracker.OnePolicySection` | create.go:138-139 | policy sections exclude each other in every interleaving |
| `Tracker.CleanupSparesNewerEntries` | container/container.go:81-94 | a finished operation's cleanup removes its own entry or none, never a newer one |
| `Tracker.BeginsAfterPredecessor` | container/container.go:58-73 | an operation, in particular a deletion, begins only after its predecessor's done channel closed |
| `Tracker.OnlyDeletionsCancel` | container/container.go:58-68 | only a deletion cancels, and only a creation on the same container |
| `Tracker.DeletionsCancelCreations` | container/container.go:58-73 | in every interleaving, an operation that waits has cancelled the one it waits for if and only if it is a deletion and the other a creation |
| `Tracker.CancelledExactly` | container/container.go:58-68 | an operation is cancelled if and only if it is a creation that a deletion of its container found at work |
| `Tracker.NoDeadlock` | container/container.go:46-95 | although an operation waits while holding the tracker's mutex, some unfinished operation can always go on |
| `Tracker.EverythingFinishes` | container/container.go:46-95 | every schedule is bounded by the work there is, and one that cannot be continued has finished every operation |
| `Lanes.StepKeepsInv` | events.go:46-117 | every step of the owner and the workers keeps counters, lanes and histories consistent |
| `Lanes.HandledInStreamOrder` | events.go:46-92 | for each container the begun events are a prefix of the accepted, those of the delivered, across reaped and reopened lanes |
| `Lanes.OneInFlight` | events.go:81-92 | at most one event of a container is being handled, whichever lanes it had |
| `Lanes.InactiveMeansReapable` | events.go:81-109 | whenever the owner looks, the aggregate counter covers the lanes' counters, and zero means nothing is in flight and every lane can be reaped |
| `Lanes.HandlersReturnFirst` | manager.go:146-151 | when the owner is gone every handler returned and every accepted event was handled; no event is put into a closed lane |
| `Lanes.LanesAreBounded` | events.go:14-14 | no lane ever holds more than sixteen events, and events are given up only when the manager is stopping |
| `Lanes.ReconcilesExactlyAtRest` | manager.go:190-194 | the timer lets reconciliation begin if and only if every lane is at rest |
| `Lanes.IdleLanesAreGivenBack` | events.go:98-109 | if everything is at rest when an event or the timer comes, no lane is open after the owner has looked at them all |
| `Workers.RunsAreLaneRuns` | manager.go:289-345 | handlers and workers run beside the lanes without changing what those guarantee |
| `Workers.StepKeepsInv` | manager.go:303-345 | unless the manager is stopping, every running operation is awaited by the handler that handed it over |
| `Workers.ReconcileRunsAlone` | manager.go:190-198 | while reconciliation runs no event-driven creation or deletion does, unless the manager is stopping, and none is handed over in any case |
| `Workers.OverlapInShutdown` | manager.go:303-345 | a run in which, while stopping, a creation whose handler has given up runs beside reconciliation |
| `Workers.OneOperationPerContainer` | manager.go:303-345 | unless the manager is stopping, the operations on one container run one at a time, each for the event that began last, in stream order |
| `Workers.NoResultIsLost` | manager.go:303-345 | in every run, the operation that a handler waits for is under way or its result is there |
| `Workers.HandlersGoOn` | manager.go:303-345 | so a handler can always be brought on, by itself or by its worker |
| `Workers.ChannelsCloseLast` | manager.go:146-151 | createCh and deleteCh close only after every handler returned and every accepted event was handled, so no handler ever sends on a closed channel; the workers end only after that |
| `Workers.ShutdownGoesOn` | manager.go:136-154 | once the manager is stopping, something can happen until both workers have ended |

## Left out

- Netlink, the Docker API, SQLite, YAML and gob wire formats; a stored rule is the
  rule with its unexported flags dropped, and reading one fails when its ports or
  addresses are not valid.
- Timeouts, retries and reconnect delays: a call succeeds or fails.
- A Docker state that changes during one operation: each operation sees one
  snapshot, with any call failing; a container that disappeared is one the
  snapshot lists but cannot inspect. Inspections are not cached within a policy.
- Changes to the ruleset by other programs between the reads and the flush of one
  operation; the tracker model shows that Whalewall's own policy sections exclude
  each other, and a base repair touches no container chain.
- IPv6 addresses and gateways, beyond the checks that reject them.
- Queue and custom-chain verdicts of createNFTRules: validation admits neither
  (config.go:598-607), so they are excluded by `PlainVerdict`.
- Packet counters, and the names of anonymous sets, which are values inside the
  lookup that uses them; `RulesEqual` compares their registers only.
- The schema of the verdict map and the hook, priority and type of base chains:
  a chain is regular or not, and the map exists or not.
- One packet's connection state is the same in every rule that reads it.
- Which rules are logged, and the limit on the length of a log prefix in UTF-8
  characters; a prefix is cut at 127.
- The order in which rows, networks and edges of one policy are generated in front
  of the port rules, and how often: the source leaves some of it to map iteration
  and unordered queries. `Packets.CreatedDecidesAlike` shows that no packet can tell.
- The fallback for rows without a resolved destination in createOutputRules
  (create.go:1238-1250), which newly generated policies never take.
- Clearing all rules at once (delete.go:24-126), and the loops over containers of
  cleanupRules and syncContainers, which call the operations modelled here.
- Events without a container ID, which are only logged; and which operation an event
  leads to: a handler may decide for either, or for none, so that the results about
  lanes and workers hold whatever it decides.
- Ports.CreatePortMappingRules: takes the names of the attached networks and the
  published ports in sorted order; warnings about unusual policies are not modelled.
- Engine.EnsureContainerDropPolicy: reports success without a flush where the drop
  is already in place, so the log of committed states may stay as it is.
- Manager.Manager.Serve: runs operations one at a time, as `Tracker`, `Lanes` and
  `Workers` show that they do; a base repair may run beside one, and `Runs` has all
  batches in any interleaving.
- Confluence.OrderIndependentExactly: is about histories of successful creations
  without deletions, from an empty database; deletion is covered by the run
  invariants.
- Workers.ReconcileRunsAlone: does not distinguish a cancelled context from the
  manager's stop; both make the handlers give up. The initial synchronisation runs
  before the lanes exist.
- Tracker.EverythingFinishes: assumes that each operation takes its locks a finite
  number of times, as every call it makes has a timeout.
