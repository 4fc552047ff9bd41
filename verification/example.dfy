/** Worlds of two managed containers and one that is not: for each gap between the
    names a rule can match and those its destination looks for, a world in which two
    orders of processing end differently; and one in which all end alike. */
module Example {
  import opened Nft
  import opened Names
  import opened Compiler
  import opened Config
  import opened Wrappers
  import opened Policy
  import opened Scope
  import opened Store
  import opened Generate
  import opened Outputs
  import opened Ports
  import opened Build
  import opened Manager
  import opened Order
  import opened Independence
  import opened Canonical
  import opened Completion
  import opened Confluence

  function IDOf(digit: char): string { seq(64, i requires 0 <= i < 64 => digit) }

  function OnNet(addr: Addr32): Networks { map["net" := Some(Endpoint("net-id", V4(addr), false, NoIP, 0))] }

  function Running(id: string, name: string, service: string, addr: Addr32, p: PolicyLabel): Container
  {
    Container(id, name, true, service, "", None, Some(OnNet(addr)), p)
  }

  function Seen(c: Container, service: Option<string>, enabled: bool): Inspect
  {
    Inspect(c.id, c.name, false, true, Some(enabled), c.project, service, c.scopeLabel, c.networks)
  }

  /** An allow rule for one port of the container of that name. */
  function AllowTo(name: string): RuleConfig
  {
    EMPTY_RULE.(network := "net", container := name, proto := Tcp, dstPorts := [RulePorts(5432, 0, 0)])
  }

  const NOTHING_PUBLISHED: Publication := PublishedPorts(OnNet(10), ["net"], false, [], NO_ACCESS, NO_ACCESS)

  const APP := IDOf('a')
  const DB := IDOf('b')
  const OTHER := IDOf('c')

  /** An application with a rule for `target`, a database listed under `names`, and
      a container that Whalewall does not manage. */
  function Pair(target: string, names: seq<string>, service: Option<string>): World
  {
    var app := Running(APP, "/app", "", 10, Rules([AllowTo(target)], NOTHING_PUBLISHED));
    var db := Running(DB, "/db", ServiceOf(service), 11, NoPolicy);
    var other := Running(OTHER, "/other", "", 12, NoPolicy);
    World(map[APP := app, DB := db],
          Snapshot([Summary(APP, ["/app"], "", None), Summary(DB, names, "", service), Summary(OTHER, ["/other"], "", None)],
                   map[APP := Seen(app, None, true), DB := Seen(db, service, true), OTHER := Seen(other, None, false)]))
  }

  // ----- what is the same in all of them -----

  /** What the arguments need of such a world: two containers apart, ... */
  ghost predicate AreSettled(w: World, a: string, b: string)
  {
    && a != b && w.conts.Keys == {a, b} && (forall k :: k in w.now.conts ==> k != "" && w.now.conts[k].id == k)
    && Described(w, a) && Described(w, b) && NameOf(w, a) != NameOf(w, b) && PolicyKeys(w.conts[a]) !! PolicyKeys(w.conts[b])
    && w.conts[a].networks.value.Keys != {HOST} && w.conts[b].networks.value.Keys != {HOST}
  }

  /** ... and a single rule, which does not name its own container. */
  ghost predicate HaveOneRule(w: World, a: string, b: string, r: RuleConfig)
  {
    && w.conts.Keys == {a, b} && RulesFor(w, a) == [r] && RulesFor(w, b) == [] && r.container != ""
    && !AliasOf(r.container, SelfOf(w.conts[a]).name, SelfOf(w.conts[a]).service)
    && FindNetwork(r.network, SelfOf(w.conts[a]).project, SelfOf(w.conts[a]).networks).Some?
  }

  ghost predicate IsNeighbours(w: World, a: string, b: string, r: RuleConfig)
  {
    AreSettled(w, a, b) && HaveOneRule(w, a, b, r)
  }

  lemma NoRulesNoEdges(w: World, x: string, y: string)
    requires x in w.conts && RulesFor(w, x) == []
    ensures forall rd :: !OutDetail(w, x, y, rd) && !InDetail(w, x, y, rd)
  {
  }

  lemma OnlyRow(w: World, a: string, r: RuleConfig, row: Waiting)
    requires a in w.conts && RulesFor(w, a) == [r] && RowOf(w, a, row)
    ensures r.container != "" && row in RowsOf(w.now, SelfOf(w.conts[a]), r) && row.dstName == r.container
  {
  }

  lemma NotAliasedNotIn(w: World, a: string, x: string, r: RuleConfig)
    requires a in w.conts && x in w.conts && RulesFor(w, a) == [r]
    requires !AliasOf(r.container, SelfOf(w.conts[x]).name, SelfOf(w.conts[x]).service)
    ensures forall rd :: !InDetail(w, a, x, rd)
  {
    forall row | RowOf(w, a, row) ensures !Aliased(SelfOf(w.conts[x]), row) { OnlyRow(w, a, r, row); }
  }

  lemma NotChosenNotOut(w: World, a: string, x: string, r: RuleConfig)
    requires a in w.conts && RulesFor(w, a) == [r]
    requires var d := DestinationOf(w.now, SelfOf(w.conts[a]), r); d.Chosen? ==> d.cont.id != x
    ensures forall rd :: !OutDetail(w, a, x, rd)
  {
  }

  lemma AreApart(w: World, a: string, b: string)
    requires w.conts.Keys == {a, b} && NameOf(w, a) != NameOf(w, b) && PolicyKeys(w.conts[a]) !! PolicyKeys(w.conts[b])
    ensures forall x, y {:trigger NameOf(w, x), NameOf(w, y)} :: x in w.conts && y in w.conts && x != y ==> NameOf(w, x) != NameOf(w, y)
    ensures forall x, y {:trigger PolicyKeys(w.conts[x]), PolicyKeys(w.conts[y])} :: x in w.conts && y in w.conts && x != y ==>
              PolicyKeys(w.conts[x]) !! PolicyKeys(w.conts[y])
  {
    forall x, y | x in w.conts && y in w.conts && x != y
      ensures NameOf(w, x) != NameOf(w, y) && PolicyKeys(w.conts[x]) !! PolicyKeys(w.conts[y])
    {
      if x == a { assert y == b; } else { assert x == b && y == a; }
    }
  }

  lemma NoEdgesToItself(w: World, a: string, b: string, r: RuleConfig)
    requires w.conts.Keys == {a, b} && RulesFor(w, a) == [r] && RulesFor(w, b) == []
    requires !AliasOf(r.container, SelfOf(w.conts[a]).name, SelfOf(w.conts[a]).service)
    requires var d := DestinationOf(w.now, SelfOf(w.conts[a]), r); d.Chosen? ==> d.cont.id != a
    ensures forall id, rd :: !OutDetail(w, id, id, rd) && !InDetail(w, id, id, rd)
  {
    NoRulesNoEdges(w, b, b);
    NotAliasedNotIn(w, a, a, r);
    NotChosenNotOut(w, a, a, r);
  }

  lemma BothDescribed(w: World, a: string, b: string)
    requires w.conts.Keys == {a, b} && Described(w, a) && Described(w, b)
    ensures forall id {:trigger Described(w, id)} :: id in w.conts ==> Described(w, id)
  {
    forall id | id in w.conts ensures Described(w, id) { if id != a { assert id == b; } }
  }

  lemma NeighboursAreValid(w: World, a: string, b: string, r: RuleConfig)
    requires IsNeighbours(w, a, b, r)
    requires var d := DestinationOf(w.now, SelfOf(w.conts[a]), r); d.Chosen? ==> d.cont.id != a
    ensures ValidWorld(w)
  {
    NoEdgesToItself(w, a, b, r);
    AreApart(w, a, b);
    BothDescribed(w, a, b);
  }

  lemma OnlyStray(w: World, a: string, b: string, r: RuleConfig, s: string, d: string, q: RuleConfig)
    requires w.conts.Keys == {a, b} && RulesFor(w, a) == [r] && RulesFor(w, b) == []
    requires !AliasOf(r.container, SelfOf(w.conts[a]).name, SelfOf(w.conts[a]).service)
    ensures FailingRow(w, s, d, q) ==> s == a && d == b && q == r
  {
    if FailingRow(w, s, d, q) {
      assert StrayRow(w, s, d, q);
      assert s in {a, b} && d in {a, b};
    }
  }

  lemma NeighboursAreConnected(w: World, a: string, b: string, r: RuleConfig)
    requires IsNeighbours(w, a, b, r) && !DestinationOf(w.now, SelfOf(w.conts[a]), r).Refused?
    ensures Connected(w, a) && Connected(w, b)
  {
  }

  lemma NoneFails(w: World, a: string, b: string, r: RuleConfig)
    requires w.conts.Keys == {a, b} && RulesFor(w, a) == [r] && RulesFor(w, b) == []
    requires !AliasOf(r.container, SelfOf(w.conts[a]).name, SelfOf(w.conts[a]).service) && !FailingRow(w, a, b, r)
    ensures forall P, id :: NothingFails(w, P, id)
  {
    forall s, d, q ensures !FailingRow(w, s, d, q) { OnlyStray(w, a, b, r, s, d, q); }
  }

  lemma NeighboursAreProcessable(w: World, a: string, b: string, r: RuleConfig)
    requires IsNeighbours(w, a, b, r) && !DestinationOf(w.now, SelfOf(w.conts[a]), r).Refused? && !FailingRow(w, a, b, r)
    ensures Processable(w)
  {
    NeighboursAreConnected(w, a, b, r);
    NoneFails(w, a, b, r);
    BothConnected(w, a, b);
  }

  lemma BothConnected(w: World, a: string, b: string)
    requires w.conts.Keys == {a, b} && Connected(w, a) && Connected(w, b) && forall P, id :: NothingFails(w, P, id)
    ensures Processable(w)
  {
    forall id | id in w.conts ensures Connected(w, id) { if id != a { assert id == b; } }
  }

  lemma EdgeContributes(rd: RuleDetails) returns (c: string, x: Rule)
    requires ValidDetails(rd) && !rd.cfg.verdict.drop
    ensures Contributes(rd, c, x)
  {
    ValidDetailsCompile(rd);
    RulesAreListed(rd);
    var q := RulesOf(rd)[0];
    assert q in RulesOf(rd);
    c, x := q.chain, StripRule(q.rule);
  }

  /** Two orders of processing two containers, and a rule that only the first of
      them leaves in its chain. */
  ghost predicate Differs(w: World, x: string, y: string, c: string, r: Rule, a: seq<string>, as_: seq<Moment>, b: seq<string>, bs: seq<Moment>)
  {
    && ValidWorld(w) && Processable(w) && IsPair(a, y, x) && IsHistory(w, a, as_) && IsPair(b, x, y) && IsHistory(w, b, bs)
    && IsOurs({x, y}, c) && Holds(as_[|a|].fw, c, r) && !Holds(bs[|b|].fw, c, r)
  }

  lemma OneSided(w: World, x: string, y: string, rd: RuleDetails, c: string, q: Rule)
    requires Between(w, x, y, rd) && Contributes(rd, c, q) && forall other :: !Between(w, y, x, other)
    ensures BetweenRule(w, x, y, c, q) && !BetweenRule(w, y, x, c, q)
  {
  }

  /** A rule finds a container that does not look for it: the edge is there only if
      the source is processed last. */
  lemma FoundButMissed(w: World, x: string, y: string, r: RuleConfig)
    returns (c: string, q: Rule, a: seq<string>, as_: seq<Moment>, b: seq<string>, bs: seq<Moment>)
    requires IsNeighbours(w, x, y, r)
    requires var d := DestinationOf(w.now, SelfOf(w.conts[x]), r); d.Chosen? && d.cont.id == y
    requires !AliasOf(r.container, SelfOf(w.conts[y]).name, SelfOf(w.conts[y]).service)
    ensures Differs(w, x, y, c, q, a, as_, b, bs)
  {
    NeighboursAreValid(w, x, y, r);
    NeighboursAreProcessable(w, x, y, r);
    var row, rd := ResolvedRowIsEdge(w, x, y, r);
    assert Between(w, x, y, rd);
    BetweenIsAllowing(w, x, y, rd);
    c, q := EdgeContributes(rd);
    NoRulesNoEdges(w, y, x);
    NotAliasedNotIn(w, x, y, r);
    OneSided(w, x, y, rd, c, q);
    a, as_, b, bs := AsymmetryShows(w, x, y, c, q);
  }

  /** A container takes up a rule that did not find it: the edge is there only if
      the destination is processed last. */
  lemma TakenUpButNotFound(w: World, x: string, y: string, r: RuleConfig)
    returns (c: string, q: Rule, a: seq<string>, as_: seq<Moment>, b: seq<string>, bs: seq<Moment>)
    requires IsNeighbours(w, x, y, r) && DestinationOf(w.now, SelfOf(w.conts[x]), r).Deferred?
    requires AliasOf(r.container, SelfOf(w.conts[y]).name, SelfOf(w.conts[y]).service)
    requires WaitOn(w.now, SelfOf(w.conts[y]), DeferredRow(SelfOf(w.conts[x]), r)).Edge?
    ensures Differs(w, y, x, c, q, a, as_, b, bs)
  {
    NeighboursAreValid(w, x, y, r);
    NeighboursAreProcessable(w, x, y, r);
    var rd := WaitOn(w.now, SelfOf(w.conts[y]), DeferredRow(SelfOf(w.conts[x]), r)).rd;
    assert r in RulesFor(w, x);
    StrayIsIn(w, x, y, r, rd);
    assert Between(w, y, x, rd);
    BetweenIsAllowing(w, y, x, rd);
    c, q := EdgeContributes(rd);
    NoRulesNoEdges(w, y, x);
    NotChosenNotOut(w, x, y, r);
    OneSided(w, y, x, rd, c, q);
    a, as_, b, bs := AsymmetryShows(w, y, x, c, q);
  }

  // ----- the worlds are as required -----

  lemma IDsDiffer()
    ensures APP != DB && APP != OTHER && DB != OTHER && APP != "" && DB != "" && OTHER != ""
    ensures ValidID(APP) && ValidID(DB)
  {
    assert APP[0] == 'a' && DB[0] == 'b' && OTHER[0] == 'c';
  }

  lemma OnNetIsValid(addr: Addr32)
    ensures ValidScope(None, "", OnNet(addr)) && PolicyNetworks(None, "", OnNet(addr)) == OnNet(addr)
    ensures FindNetwork("net", "", OnNet(addr)) == Some("net") && OnNet(addr).Keys != {HOST}
  {
    assert "net" in OnNet(addr);
    assert "net" != HOST;
  }

  lemma RuleIsValid(target: string)
    requires !IsBlank(target) && target != ""
    ensures ValidateRule(AllowTo(target)).None? && ValidParts(AllowTo(target))
    ensures FirstError([AllowTo(target)]).None? && Flatten([AllowTo(target)]) == [AllowTo(target)]
  {
    assert [AllowTo(target)][1..] == [] && [AllowTo(target)][..0] == [];
    assert Flatten([AllowTo(target)]) == [] + [AllowTo(target)];
  }

  lemma PairIsDescribed(target: string, names: seq<string>, service: Option<string>)
    requires !IsBlank(target) && target != ""
    ensures APP != DB && Described(Pair(target, names, service), APP) && Described(Pair(target, names, service), DB)
  {
    IDsDiffer();
    OnNetIsValid(10);
    OnNetIsValid(11);
    RuleIsValid(target);
  }

  lemma PairIsApart(target: string, names: seq<string>, service: Option<string>)
    ensures APP != DB
    ensures var w := Pair(target, names, service);
            NameOf(w, APP) == "app" && NameOf(w, DB) == "db" && PolicyKeys(w.conts[APP]) !! PolicyKeys(w.conts[DB])
  {
    IDsDiffer();
    OnNetIsValid(10);
    OnNetIsValid(11);
    if KeyOf(10) == KeyOf(11) { KeyOfInjective(10, 11); }
  }

  lemma PairIsLinked(target: string, names: seq<string>, service: Option<string>)
    ensures APP != DB
    ensures var w := Pair(target, names, service);
            && SelfOf(w.conts[APP]) == Self(APP, "app", "", "", OnNet(10)) && SelfOf(w.conts[DB]) == Self(DB, "db", ServiceOf(service), "", OnNet(11))
            && w.conts[APP].networks == Some(OnNet(10)) && w.conts[DB].networks == Some(OnNet(11))
  {
    IDsDiffer();
    OnNetIsValid(10);
    OnNetIsValid(11);
  }

  lemma PairIsInspected(target: string, names: seq<string>, service: Option<string>)
    ensures var w := Pair(target, names, service); w.conts.Keys == {APP, DB} && forall k :: k in w.now.conts ==> k != "" && w.now.conts[k].id == k
  {
    IDsDiffer();
  }

  lemma PairIsSettled(target: string, names: seq<string>, service: Option<string>)
    requires !IsBlank(target) && target != ""
    ensures AreSettled(Pair(target, names, service), APP, DB)
  {
    PairIsInspected(target, names, service);
    OnNetIsValid(10);
    OnNetIsValid(11);
    PairIsLinked(target, names, service);
    PairIsDescribed(target, names, service);
    PairIsApart(target, names, service);
    assert "app"[0] != "db"[0];
  }

  lemma PairHasOneRule(target: string, names: seq<string>, service: Option<string>)
    requires !IsBlank(target) && target != "" && target != "app" && target != "/app"
    ensures HaveOneRule(Pair(target, names, service), APP, DB, AllowTo(target))
  {
    IDsDiffer();
    OnNetIsValid(10);
    RuleIsValid(target);
    PairIsLinked(target, names, service);
    assert "/" + "app" == "/app";
    assert ContainerAliases("app", "") == ["/app"] + [];
  }

  lemma PairIsNeighbours(target: string, names: seq<string>, service: Option<string>)
    requires !IsBlank(target) && target != "" && target != "app" && target != "/app"
    ensures IsNeighbours(Pair(target, names, service), APP, DB, AllowTo(target))
  {
    PairIsSettled(target, names, service);
    PairHasOneRule(target, names, service);
  }

  lemma OnlySecondMatches(a: Summary, b: Summary, c: Summary, expected: string, project: string)
    requires NameRank(expected, project, a) == 0 && NameRank(expected, project, c) == 0
    ensures BestMatches([a, b, c], expected, project) == if NameRank(expected, project, b) > 0 then [b] else []
  {
    var r := NameRank(expected, project, b);
    assert [a, b, c][..2] == [a, b] && [a, b][..1] == [a] && [a][..0] == [];
    assert MaxRank([a], expected, project) == 0 && MaxRank([a, b], expected, project) == r && MaxRank([a, b, c], expected, project) == r;
    if r > 0 {
      assert OfRank([a], expected, project, r) == [] && OfRank([a, b], expected, project, r) == [] + [b];
    }
  }

  lemma OneViable(conts: map<string, Inspect>, m: Summary, network: string, srcName: string, src: Option<Endpoint>)
    requires LookAt(conts, m.id, network, srcName, src).Viable?
    ensures var look := LookAt(conts, m.id, network, srcName, src);
            Decide(Tallied(conts, [m], network, srcName, src)) == Chosen(look.cont, look.endpoint)
  {
    assert [m][..0] == [];
  }

  /** The name reaches neither the application nor the container beside it. */
  predicate NamesDatabase(target: string)
  {
    target != "" && !IsBlank(target) && target !in {"app", "/app", "other", "/other"}
  }

  lemma SlashKeeps(a: string, b: string)
    ensures "/" + a == "/" + b ==> a == b
  {
    if "/" + a == "/" + b { assert ("/" + a)[1..] == a && ("/" + b)[1..] == b; }
  }

  lemma PairResolves(target: string, names: seq<string>, service: Option<string>)
    requires NamesDatabase(target)
    ensures APP != DB
    ensures var w, m := Pair(target, names, service), Summary(DB, names, "", service);
            var d := DestinationOf(w.now, SelfOf(w.conts[APP]), AllowTo(target));
            if NameRank(target, "", m) > 0 then d.Chosen? && d.cont.id == DB else d.Deferred?
  {
    IDsDiffer();
    OnNetIsValid(10);
    OnNetIsValid(11);
    var w := Pair(target, names, service);
    var app, db, other := w.now.listed[0], w.now.listed[1], w.now.listed[2];
    SlashKeeps(target, "app");
    SlashKeeps(target, "other");
    assert "/app" == "/" + "app" && "/other" == "/" + "other";
    assert NameRank(target, "", app) == 0 && NameRank(target, "", other) == 0;
    OnlySecondMatches(app, db, other, target, "");
    OneViable(w.now.conts, db, "net", "net", OnNet(10)["net"]);
  }

  /** The row of the rule, where it did not find the database, fits it all the same. */
  lemma PairRowIsEdge(target: string, names: seq<string>, service: Option<string>)
    requires NamesDatabase(target)
    ensures APP != DB
    ensures var w := Pair(target, names, service);
            WaitOn(w.now, SelfOf(w.conts[DB]), DeferredRow(SelfOf(w.conts[APP]), AllowTo(target))).Edge?
  {
    IDsDiffer();
    OnNetIsValid(10);
    OnNetIsValid(11);
    RuleIsValid(target);
    PairIsLinked(target, names, service);
    PersistedIsValid(AllowTo(target), Identified(Self(APP, "app", "", "", OnNet(10)), AllowTo(target)));
    RowFits(Pair(target, names, service).now, target, Self(APP, "app", "", "", OnNet(10)), Self(DB, "db", ServiceOf(service), "", OnNet(11)));
  }

  lemma RowFits(now: Snapshot, target: string, S: Self, D: Self)
    requires S == Self(APP, "app", "", "", OnNet(10)) && D == Self(DB, "db", D.service, "", OnNet(11))
    requires APP in now.conts && Sound(now.conts[APP]) && now.conts[APP].project == "" && Managed(now.conts[APP]) == OnNet(10)
    requires var row := DeferredRow(S, AllowTo(target)); ValidParts(row.rule) && ValidateRule(row.rule).None?
    ensures WaitOn(now, D, DeferredRow(S, AllowTo(target))).Edge?
  {
    OnNetIsValid(10);
    OnNetIsValid(11);
    assert FilterRow(D, DeferredRow(S, AllowTo(target))).None?;
  }

  // ----- exactly the gaps make the order matter -----

  predicate GapIn(target: string, m: Summary, name: string)
  {
    LinkGap(target, m, name) || SlashGap(target, "", m, name) || ServiceGap(target, m, name) || OwnNameGap(target, m, name)
  }

  predicate HasGap(target: string, names: seq<string>, service: Option<string>)
  {
    GapIn(target, Summary(DB, names, "", service), "db")
  }

  lemma GapsMakeADifference(target: string, names: seq<string>, service: Option<string>)
    returns (x: string, y: string, c: string, q: Rule, a: seq<string>, as_: seq<Moment>, b: seq<string>, bs: seq<Moment>)
    requires NamesDatabase(target) && HasGap(target, names, service)
    ensures Differs(Pair(target, names, service), x, y, c, q, a, as_, b, bs)
  {
    var w, m := Pair(target, names, service), Summary(DB, names, "", service);
    PairIsNeighbours(target, names, service);
    PairIsLinked(target, names, service);
    PairResolves(target, names, service);
    MatchedNamesAreAliases(target, "", m, "db");
    AliasesMatch(target, "", m, "db");
    if NameRank(target, "", m) > 0 {
      x, y := APP, DB;
      c, q, a, as_, b, bs := FoundButMissed(w, APP, DB, AllowTo(target));
    } else {
      x, y := DB, APP;
      PairRowIsEdge(target, names, service);
      c, q, a, as_, b, bs := TakenUpButNotFound(w, APP, DB, AllowTo(target));
    }
  }

  lemma SameSets(a: seq<string>, b: seq<string>, x: string, y: string)
    requires IsPair(a, y, x) && IsPair(b, x, y)
    ensures Processed(a) == Processed(b) == {x, y}
  {
  }

  lemma DifferenceBreaksIndependence(w: World, x: string, y: string, c: string, q: Rule, a: seq<string>, as_: seq<Moment>,
                                     b: seq<string>, bs: seq<Moment>)
    requires IsPair(a, y, x) && IsHistory(w, a, as_) && IsPair(b, x, y) && IsHistory(w, b, bs)
    requires IsOurs({x, y}, c) && Holds(as_[|a|].fw, c, q) && !Holds(bs[|b|].fw, c, q)
    ensures !OrderIndependent(w)
  {
    SameSets(a, b, x, y);
    if OrderIndependent(w) { EndsAgree(w, a, as_, b, bs, c, q); }
  }

  lemma PairIsSteady(target: string, names: seq<string>, service: Option<string>)
    ensures Steady(Pair(target, names, service))
  {
    IDsDiffer();
    var w := Pair(target, names, service);
    assert w.now.listed[0] in w.now.listed && w.now.listed[1] in w.now.listed;
  }

  lemma AppHasNoGap(target: string)
    requires NamesDatabase(target)
    ensures !GapIn(target, Summary(APP, ["/app"], "", None), "app")
  {
    SlashKeeps(target, "app");
    assert "/" + "app" == "/app";
  }

  lemma PairListing(target: string, names: seq<string>, service: Option<string>)
    ensures var w := Pair(target, names, service);
            forall m :: m in w.now.listed ==>
              && (m.id == APP ==> m == Summary(APP, ["/app"], "", None))
              && (m.id == DB ==> m == Summary(DB, names, "", service))
  {
    IDsDiffer();
  }

  lemma HitsNoGap(w: World, target: string, s: string, d: string, r: RuleConfig)
    requires HaveOneRule(w, APP, DB, AllowTo(target)) && APP != DB && w.conts[APP].project == ""
    requires forall m :: m in w.now.listed ==> (m.id == APP ==> !GapIn(target, m, NameOf(w, APP))) && (m.id == DB ==> !GapIn(target, m, NameOf(w, DB)))
    ensures !HitsGap(w, s, d, r)
  {
  }

  lemma PairHitsNoGap(target: string, names: seq<string>, service: Option<string>, s: string, d: string, r: RuleConfig)
    requires NamesDatabase(target) && !HasGap(target, names, service)
    ensures !HitsGap(Pair(target, names, service), s, d, r)
  {
    PairHasOneRule(target, names, service);
    PairIsApart(target, names, service);
    PairListing(target, names, service);
    AppHasNoGap(target);
    HitsNoGap(Pair(target, names, service), target, s, d, r);
  }

  /** In these worlds the order of processing matters exactly when the name hits
      one of the gaps. */
  lemma OrderMattersExactly(target: string, names: seq<string>, service: Option<string>)
    requires NamesDatabase(target)
    ensures ValidWorld(Pair(target, names, service)) && (OrderIndependent(Pair(target, names, service)) <==> !HasGap(target, names, service))
  {
    var w := Pair(target, names, service);
    PairIsNeighbours(target, names, service);
    PairResolves(target, names, service);
    NeighboursAreValid(w, APP, DB, AllowTo(target));
    if HasGap(target, names, service) {
      var x, y, c, q, a, as_, b, bs := GapsMakeADifference(target, names, service);
      DifferenceBreaksIndependence(w, x, y, c, q, a, as_, b, bs);
    } else {
      PairIsSteady(target, names, service);
      forall s, d, r ensures !HitsGap(w, s, d, r) { PairHitsNoGap(target, names, service, s, d, r); }
      OrderDoesNotMatter(w);
    }
  }

  /** One input for each gap, at the level of whole histories, and one without. */
  lemma GapsByExample()
    ensures !OrderIndependent(Pair("app/db", ["/db", "/app/db"], None))
    ensures !OrderIndependent(Pair("/", ["/db"], Some("")))
    ensures !OrderIndependent(Pair("/x", ["/db"], Some("/x")))
    ensures !OrderIndependent(Pair("db", ["/app/db"], None))
    ensures OrderIndependent(Pair("db", ["/db"], None))
  {
    TheseAreGaps();
    assert !IsSpace("app/db"[0]) && !IsSpace("/"[0]) && !IsSpace("/x"[0]) && !IsSpace("db"[0]);
    OrderMattersExactly("app/db", ["/db", "/app/db"], None);
    OrderMattersExactly("/", ["/db"], Some(""));
    OrderMattersExactly("/x", ["/db"], Some("/x"));
    OrderMattersExactly("db", ["/app/db"], None);
    OrderMattersExactly("db", ["/db"], None);
  }

  lemma TheseAreGaps()
    ensures HasGap("app/db", ["/db", "/app/db"], None) && HasGap("/", ["/db"], Some("")) && HasGap("/x", ["/db"], Some("/x"))
    ensures HasGap("db", ["/app/db"], None) && !HasGap("db", ["/db"], None)
  {
    assert "/" + "app/db" == "/app/db" && "/" + "db" == "/db";
    assert |"/app/db"| != |"/db"|;
  }
}
