/** The ownership database: tables with their constraints, transactions, and the
    statement sequences that record and erase a container. */
module Store {
  import opened Nft
  import opened Names
  import opened Chains
  import opened Config
  import opened Wrappers
  import opened Policy
  import Kernel

  /** A persisted rule of container `src` towards a container known as `dstName`. */
  datatype Waiting = Waiting(src: string, dstName: string, rule: RuleConfig)

  datatype Tables = Tables(containers: map<string, string>, addrs: map<Key, string>,
                           aliases: set<(string, string)>, est: set<(string, string)>, waiting: set<Waiting>)

  /** Every foreign key refers to a containers row. */
  ghost predicate References(t: Tables)
  {
    && (forall k :: k in t.addrs ==> t.addrs[k] in t.containers)
    && (forall a :: a in t.aliases ==> a.0 in t.containers)
    && (forall e :: e in t.est ==> e.0 in t.containers && e.1 in t.containers)
    && forall w :: w in t.waiting ==> w.src in t.containers
  }

  /** Container names are unique. */
  ghost predicate UniqueNames(t: Tables)
  {
    forall a, b :: a in t.containers && b in t.containers && t.containers[a] == t.containers[b] ==> a == b
  }

  ghost predicate Integrity(t: Tables) { References(t) && UniqueNames(t) }

  type SoundTables = t: Tables | Integrity(t) witness Tables(map[], map[], {}, {}, {})

  datatype Stmt =
    | AddContainer(id: string, name: string)
    | AddAddr(key: Key, id: string)
    | AddAlias(id: string, alias: string)
    | AddEst(src: string, dst: string)
    | AddWaiting(row: Waiting)
    | DelContainer(id: string)
    | DelAddrs(id: string)
    | DelAliases(id: string)
    | DelEst(id: string)
    | DelSourceEst(id: string)
    | DelWaiting(id: string)

  function AddrsWithout(m: map<Key, string>, id: string): map<Key, string>
  {
    map k | k in m && m[k] != id :: m[k]
  }

  function AliasesWithout(s: set<(string, string)>, id: string): set<(string, string)>
  {
    set a | a in s && a.0 != id
  }

  function EstWithoutSource(s: set<(string, string)>, id: string): set<(string, string)>
  {
    set e | e in s && e.0 != id
  }

  function EstWithout(s: set<(string, string)>, id: string): set<(string, string)>
  {
    set e | e in s && e.0 != id && e.1 != id
  }

  function WaitingWithout(s: set<Waiting>, id: string): set<Waiting>
  {
    set w | w in s && w.src != id
  }

  function AddrsWith(m: map<Key, string>, keys: set<Key>, id: string): map<Key, string>
  {
    m + map k | k in keys :: id
  }

  lemma AddrsWithOneMore(m: map<Key, string>, keys: set<Key>, key: Key, id: string)
    ensures AddrsWith(m, keys + {key}, id) == AddrsWith(m, keys, id)[key := id]
  {
  }

  predicate NameFree(t: Tables, id: string, name: string)
  {
    forall x :: x in t.containers && x != id ==> t.containers[x] != name
  }

  predicate Unreferenced(t: Tables, id: string)
  {
    && (forall k :: k in t.addrs ==> t.addrs[k] != id) && (forall a :: a in t.aliases ==> a.0 != id)
    && (forall e :: e in t.est ==> e.0 != id && e.1 != id) && (forall w :: w in t.waiting ==> w.src != id)
  }

  /** One statement; None when it violates a constraint. */
  function RunStmt(t: Tables, s: Stmt): Option<Tables>
  {
    match s
    case AddContainer(id, name) =>
      if NameFree(t, id, name) then Some(t.(containers := t.containers[id := name])) else None
    case AddAddr(key, id) =>
      if id in t.containers then Some(t.(addrs := t.addrs[key := id])) else None
    case AddAlias(id, alias) =>
      if id in t.containers then Some(t.(aliases := t.aliases + {(id, alias)})) else None
    case AddEst(src, dst) =>
      if src in t.containers && dst in t.containers then Some(t.(est := t.est + {(src, dst)})) else None
    case AddWaiting(row) =>
      if row.src in t.containers then Some(t.(waiting := t.waiting + {row})) else None
    case DelContainer(id) =>
      if id !in t.containers || Unreferenced(t, id) then Some(t.(containers := t.containers - {id})) else None
    case DelAddrs(id) => Some(t.(addrs := AddrsWithout(t.addrs, id)))
    case DelAliases(id) => Some(t.(aliases := AliasesWithout(t.aliases, id)))
    case DelEst(id) => Some(t.(est := EstWithout(t.est, id)))
    case DelSourceEst(id) => Some(t.(est := EstWithoutSource(t.est, id)))
    case DelWaiting(id) => Some(t.(waiting := WaitingWithout(t.waiting, id)))
  }

  /** No statement that is accepted breaks a foreign key or a unique name. */
  lemma StmtKeepsIntegrity(t: Tables, s: Stmt)
    requires Integrity(t) && RunStmt(t, s).Some?
    ensures Integrity(RunStmt(t, s).value)
  {
  }

  /** The single SQLite connection: committed tables, and the working copy of the
      open transaction; both always satisfy the constraints. */
  class Database {
    var tables: SoundTables
    var work: SoundTables
    const faults: Kernel.Faults

    constructor (tables: SoundTables, faults: Kernel.Faults)
      ensures this.tables == tables && this.faults == faults
    {
      this.tables, this.work, this.faults := tables, tables, faults;
    }

    method Begin() returns (ok: bool)
      modifies this`work, faults
      ensures ok ==> work == tables
      ensures old(faults.script) == [] ==> faults.script == [] && ok
    {
      var fault := faults.Next();
      ok := !fault;
      if ok { work := tables; }
    }

    method Do(s: Stmt) returns (ok: bool)
      modifies this`work, faults
      ensures if ok then RunStmt(old(work), s) == Some(work) else work == old(work)
      ensures old(faults.script) == [] ==> faults.script == [] && (ok <==> RunStmt(old(work), s).Some?)
    {
      var fault := faults.Next();
      var r := RunStmt(work, s);
      ok := !fault && r.Some?;
      if ok {
        StmtKeepsIntegrity(work, s);
        work := r.value;
      }
    }

    /** ContainerExists */
    method Exists(id: string) returns (r: Option<bool>)
      modifies faults
      ensures r.Some? ==> r.value == (id in work.containers)
      ensures old(faults.script) == [] ==> faults.script == [] && r.Some?
    {
      var fault := faults.Next();
      r := if fault then None else Some(id in work.containers);
    }

    /** GetWaitingContainerRules, in some order. */
    method WaitingFor(dstName: string) returns (r: Option<seq<Waiting>>)
      modifies faults
      ensures r.Some? ==> forall w :: w in r.value <==> w in work.waiting && w.dstName == dstName
      ensures old(faults.script) == [] ==> faults.script == [] && r.Some?
    {
      var fault := faults.Next();
      if fault { return None; }
      var rows: seq<Waiting> := [];
      var todo: set<Waiting> := work.waiting;
      while todo != {}
        invariant todo <= work.waiting
        invariant forall w :: w in rows <==> w in work.waiting && w !in todo && w.dstName == dstName
      {
        var w :| w in todo;
        todo := todo - {w};
        if w.dstName == dstName { rows := rows + [w]; }
      }
      return Some(rows);
    }

    method Commit() returns (ok: bool)
      modifies this`tables, faults
      ensures tables == if ok then work else old(tables)
      ensures old(faults.script) == [] ==> faults.script == [] && ok
    {
      var fault := faults.Next();
      ok := !fault;
      if ok { tables := work; }
    }
  }

  // ----- what the statement sequences amount to -----

  function ContainerAliases(name: string, service: string): seq<string>
  {
    ["/" + name] + if service != "" && service != name then [service, "/" + service] else []
  }

  function AliasRows(id: string, aliases: seq<string>): set<(string, string)>
  {
    set i | 0 <= i < |aliases| :: (id, aliases[i])
  }

  /** replaceContainerMetadata */
  function MetadataReplaced(t: Tables, id: string, name: string, service: string, keys: set<Key>): Tables
  {
    t.(containers := t.containers[id := name],
       addrs := AddrsWith(AddrsWithout(t.addrs, id), keys, id),
       aliases := AliasesWithout(t.aliases, id) + AliasRows(id, ContainerAliases(name, service)))
  }

  /** resetContainerPolicy */
  function PolicyReset(t: Tables, id: string): Tables
  {
    t.(waiting := WaitingWithout(t.waiting, id), est := EstWithoutSource(t.est, id))
  }

  function EstAdded(t: Tables, id: string, peers: set<string>): Tables
  {
    t.(est := t.est + set p | p in peers :: (id, p))
  }

  /** deleteContainer */
  function ContainerDeleted(t: Tables, id: string): Tables
  {
    Tables(t.containers - {id}, AddrsWithout(t.addrs, id), AliasesWithout(t.aliases, id),
           EstWithout(t.est, id), WaitingWithout(t.waiting, id))
  }

  method ReplaceContainerMetadata(db: Database, id: string, name: string, service: string, addrs: set<Key>) returns (ok: bool)
    modifies db`work, db.faults
    ensures ok ==> db.work == MetadataReplaced(old(db.work), id, name, service, addrs)
    ensures old(db.faults.script) == [] ==> db.faults.script == [] && (ok <==> NameFree(old(db.work), id, name))
  {
    ok := db.Do(AddContainer(id, name));
    if !ok { return; }
    ok := ReplaceAddrs(db, id, addrs);
    if !ok { return; }
    ok := ReplaceAliases(db, id, ContainerAliases(name, service));
  }

  method ReplaceAddrs(db: Database, id: string, addrs: set<Key>) returns (ok: bool)
    requires id in db.work.containers
    modifies db`work, db.faults
    ensures ok ==> db.work == old(db.work).(addrs := AddrsWith(AddrsWithout(old(db.work).addrs, id), addrs, id))
    ensures old(db.faults.script) == [] ==> db.faults.script == [] && ok
  {
    ok := db.Do(DelAddrs(id));
    if !ok { return; }
    ghost var t: Tables := db.work;
    var todo := addrs;
    ghost var done: set<Key> := {};
    assert AddrsWith(t.addrs, {}, id) == t.addrs;
    while todo != {}
      invariant done + todo == addrs && ok
      invariant db.work == t.(addrs := AddrsWith(t.addrs, done, id))
      invariant old(db.faults.script) == [] ==> db.faults.script == []
    {
      var key :| key in todo;
      ok := db.Do(AddAddr(key, id));
      if !ok { return; }
      AddrsWithOneMore(t.addrs, done, key, id);
      todo, done := todo - {key}, done + {key};
    }
  }

  method ReplaceAliases(db: Database, id: string, aliases: seq<string>) returns (ok: bool)
    requires id in db.work.containers
    modifies db`work, db.faults
    ensures ok ==> db.work == old(db.work).(aliases := AliasesWithout(old(db.work).aliases, id) + AliasRows(id, aliases))
    ensures old(db.faults.script) == [] ==> db.faults.script == [] && ok
  {
    ok := db.Do(DelAliases(id));
    if !ok { return; }
    ghost var t := db.work;
    for i := 0 to |aliases|
      invariant ok
      invariant db.work == t.(aliases := t.aliases + AliasRows(id, aliases[..i]))
      invariant old(db.faults.script) == [] ==> db.faults.script == []
    {
      ok := db.Do(AddAlias(id, aliases[i]));
      if !ok { return; }
      assert aliases[..i + 1] == aliases[..i] + [aliases[i]];
      assert AliasRows(id, aliases[..i + 1]) == AliasRows(id, aliases[..i]) + {(id, aliases[i])};
    }
    assert aliases[..|aliases|] == aliases;
  }

  method ResetContainerPolicy(db: Database, id: string) returns (ok: bool)
    modifies db`work, db.faults
    ensures ok ==> db.work == PolicyReset(old(db.work), id)
    ensures old(db.faults.script) == [] ==> db.faults.script == [] && ok
  {
    ok := db.Do(DelWaiting(id));
    if !ok { return; }
    ok := db.Do(DelSourceEst(id));
  }

  predicate PeersExist(t: Tables, id: string, peers: set<string>)
  {
    forall p :: p in peers ==> p in t.containers && id in t.containers
  }

  /** Insert the relationships and commit. */
  method FinalizeContainerPolicy(db: Database, id: string, peers: set<string>) returns (ok: bool)
    modifies db, db.faults
    ensures if ok then db.tables == EstAdded(old(db.work), id, peers) else db.tables == old(db.tables)
    ensures old(db.faults.script) == [] ==>
              db.faults.script == [] && (ok <==> PeersExist(old(db.work), id, peers))
  {
    ghost var t: Tables, done: set<string> := db.work, {};
    assert EstAdded(t, id, {}).est == t.est;
    var todo := peers;
    while todo != {}
      invariant done + todo == peers && db.tables == old(db.tables)
      invariant db.work == EstAdded(t, id, done) && PeersExist(t, id, done)
      invariant old(db.faults.script) == [] ==> db.faults.script == []
    {
      var p :| p in todo;
      ok := db.Do(AddEst(id, p));
      if !ok {
        assert p in peers;
        return false;
      }
      assert EstAdded(t, id, done).est + {(id, p)} == EstAdded(t, id, done + {p}).est;
      todo, done := todo - {p}, done + {p};
    }
    assert done == peers;
    ok := db.Commit();
  }

  /** Every reference goes before the row itself, so the foreign keys never
      refuse the deletion. */
  method DeleteContainer(db: Database, id: string) returns (ok: bool)
    modifies db, db.faults
    ensures if ok then db.tables == ContainerDeleted(old(db.work), id) else db.tables == old(db.tables)
    ensures old(db.faults.script) == [] ==> db.faults.script == [] && ok
  {
    ok := EraseReferences(db, id);
    if !ok { return; }
    ok := db.Do(DelContainer(id));
    if !ok { return; }
    ok := db.Commit();
  }

  function ReferencesErased(t: Tables, id: string): Tables
  {
    Tables(t.containers, AddrsWithout(t.addrs, id), AliasesWithout(t.aliases, id), EstWithout(t.est, id), WaitingWithout(t.waiting, id))
  }

  lemma NothingRefersTo(t: Tables, id: string)
    ensures Unreferenced(ReferencesErased(t, id), id)
  {
  }

  method EraseReferences(db: Database, id: string) returns (ok: bool)
    modifies db`work, db.faults
    ensures ok ==> db.work == ReferencesErased(old(db.work), id) && Unreferenced(db.work, id)
    ensures old(db.faults.script) == [] ==> db.faults.script == [] && ok
  {
    NothingRefersTo(db.work, id);
    ok := db.Do(DelAddrs(id));
    if !ok { return; }
    ok := db.Do(DelAliases(id));
    if !ok { return; }
    ok := db.Do(DelEst(id));
    if !ok { return; }
    ok := db.Do(DelWaiting(id));
  }

  // ----- agreement with the firewall -----

  /** The addrs table is the address map: key a belongs to id iff a leads to the
      chain of id. */
  ghost predicate IndexAgrees(m: AddrMap, addrs: map<Key, string>)
  {
    addrs.Keys == m.Keys && forall k :: k in addrs ==> m[k] == GotoChain(addrs[k])
  }

  ghost predicate Agreement(fw: Fw, t: Tables) { IndexAgrees(Mapping(fw), t.addrs) }

  lemma OwnerByChain(m: AddrMap, addrs: map<Key, string>, id: string)
    requires IndexAgrees(m, addrs)
    ensures forall k :: k in addrs ==> (m[k].chain == ChainName(id) <==> addrs[k] == id)
  {
    forall k | k in addrs ensures m[k].chain == ChainName(id) <==> addrs[k] == id {
      if m[k].chain == ChainName(id) { ChainNameInjective(addrs[k], id); }
    }
  }

  lemma RecordedAgrees(m: AddrMap, addrs: map<Key, string>, id: string, keys: set<Key>)
    requires IndexAgrees(m, addrs)
    ensures IndexAgrees(RemappedMap(m, id, keys), AddrsWith(AddrsWithout(addrs, id), keys, id))
  {
    OwnerByChain(m, addrs, id);
  }

  lemma ErasedAgrees(m: AddrMap, addrs: map<Key, string>, id: string)
    requires IndexAgrees(m, addrs)
    ensures IndexAgrees(map k | k in m && m[k].chain != ChainName(id) :: m[k], AddrsWithout(addrs, id))
  {
    OwnerByChain(m, addrs, id);
  }

  lemma RecordingKeepsAgreement(fw: Fw, t: Tables, id: string, name: string, service: string, keys: set<Key>)
    requires Agreement(fw, t)
    ensures Agreement(Remapped(fw, id, keys), MetadataReplaced(t, id, name, service, keys))
  {
    RecordedAgrees(Mapping(fw), t.addrs, id, keys);
  }

  lemma ErasingKeepsAgreement(fw: Fw, t: Tables, id: string)
    requires Agreement(fw, t)
    ensures Agreement(Deleted(fw, id), ContainerDeleted(t, id))
  {
    ErasedAgrees(Mapping(fw), t.addrs, id);
  }

  // ----- what is left alone -----

  /** Recording a container writes its own rows only, but for addresses that it now
      has: an address belongs to it exactly if it is one of its keys. */
  lemma RecordingIsLocal(t: Tables, id: string, name: string, service: string, keys: set<Key>)
    ensures var next := MetadataReplaced(t, id, name, service, keys);
            && next.est == t.est && next.waiting == t.waiting
            && (forall x :: x in next.containers <==> x == id || x in t.containers)
            && next.containers[id] == name && (forall x :: x in t.containers && x != id ==> next.containers[x] == t.containers[x])
            && (forall k :: k in next.addrs && next.addrs[k] == id <==> k in keys)
            && (forall k :: k in t.addrs && t.addrs[k] != id && k !in keys ==> k in next.addrs && next.addrs[k] == t.addrs[k])
            && (forall k :: k in next.addrs && next.addrs[k] != id ==> k in t.addrs && next.addrs[k] == t.addrs[k])
            && (forall x, a :: x != id ==> ((x, a) in next.aliases <==> (x, a) in t.aliases))
            && (forall a :: (id, a) in next.aliases <==> a in ContainerAliases(name, service))
  {
    var aliases := ContainerAliases(name, service);
    forall a | a in aliases ensures (id, a) in AliasRows(id, aliases) {
      var i :| 0 <= i < |aliases| && aliases[i] == a;
    }
  }

  /** A policy that is forgotten takes along what the container waits for and whom it
      is related to, and nothing else. */
  lemma ResettingIsLocal(t: Tables, id: string)
    ensures var next := PolicyReset(t, id);
            && next.containers == t.containers && next.addrs == t.addrs && next.aliases == t.aliases
            && (forall w :: w in next.waiting <==> w in t.waiting && w.src != id)
            && forall a, b :: (a, b) in next.est <==> (a, b) in t.est && a != id
  {
  }

  /** A deleted container is in no row any more, and every other row stays. */
  lemma DeletingIsLocal(t: Tables, id: string)
    ensures var next := ContainerDeleted(t, id);
            && (forall x :: x in next.containers <==> x in t.containers && x != id)
            && (forall x :: x in next.containers ==> next.containers[x] == t.containers[x])
            && (forall k :: k in next.addrs <==> k in t.addrs && t.addrs[k] != id)
            && (forall k :: k in next.addrs ==> next.addrs[k] == t.addrs[k])
            && (forall x, a :: (x, a) in next.aliases <==> (x, a) in t.aliases && x != id)
            && (forall a, b :: (a, b) in next.est <==> (a, b) in t.est && a != id && b != id)
            && forall w :: w in next.waiting <==> w in t.waiting && w.src != id
  {
  }
}
