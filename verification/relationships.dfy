/** The recorded relationships: after a container was processed, those of which it is
    the source are exactly the processed containers it installed an edge to or from. */
module Relationships {
  import opened Wrappers
  import Compiler
  import Config
  import opened Chains
  import opened Store
  import opened Generate
  import opened Outputs
  import opened Manager
  import opened Independence
  import opened Canonical

  lemma {:induction false} CollectedPeerContents(fs: seq<Option<Filled>>, y: string)
    requires Collect(fs).Some?
    ensures y in Collect(fs).value.est <==> exists i :: 0 <= i < |fs| && fs[i].Some? && y in fs[i].value.est
  {
    if fs != [] {
      var n := |fs| - 1;
      CollectedPeerContents(fs[..n], y);
      if y in Collect(fs[..n]).value.est {
        var i :| 0 <= i < n && fs[..n][i].Some? && y in fs[..n][i].value.est;
        assert y in fs[i].value.est;
      }
      if i :| 0 <= i < |fs| && fs[i].Some? && y in fs[i].value.est {
        if i < n { assert fs[..n][i] == fs[i]; }
      }
    }
  }

  lemma FilledPeer(now: Snapshot, known: set<string>, self: Self, r: Config.RuleConfig, y: string)
    requires Fill(now, known, self, r).Some?
    ensures y in Fill(now, known, self, r).value.est <==> y in known && exists rd :: EdgeRule(now, self, r, y, rd)
  {
    var d := DestinationOf(now, self, r);
    if r.container != "" && d.Chosen? && d.endpoint.ip.V4? {
      assert EdgeRule(now, self, r, d.cont.id, OutputEdge(self, Resolved(self, r, d.cont, d.endpoint.ip.addr), SourceKey(self, r)));
    }
  }

  ghost predicate HasEdgeRule(now: Snapshot, self: Self, r: Config.RuleConfig, y: string)
  {
    exists rd :: EdgeRule(now, self, r, y, rd)
  }

  lemma AllFilledPeers(now: Snapshot, known: set<string>, self: Self, rules: seq<Config.RuleConfig>, y: string)
    requires FillAll(now, known, self, rules).Some?
    ensures y in FillAll(now, known, self, rules).value.est <==> y in known && exists r :: r in rules && HasEdgeRule(now, self, r, y)
  {
    var fs := Fills(now, known, self, rules);
    CollectContents(fs);
    CollectedPeerContents(fs, y);
    forall i | 0 <= i < |rules| ensures fs[i].Some? && (y in fs[i].value.est <==> y in known && HasEdgeRule(now, self, rules[i], y)) {
      FilledPeer(now, known, self, rules[i], y);
    }
    if i :| 0 <= i < |fs| && fs[i].Some? && y in fs[i].value.est { assert rules[i] in rules; }
    if r :| r in rules && HasEdgeRule(now, self, r, y) {
      var i :| 0 <= i < |rules| && rules[i] == r;
    }
  }

  lemma OutputPeers(w: World, id: string, known: set<string>, y: string)
    requires id in w.conts && FillAll(w.now, known, SelfOf(w.conts[id]), RulesFor(w, id)).Some? && known <= w.conts.Keys
    ensures y in FillAll(w.now, known, SelfOf(w.conts[id]), RulesFor(w, id)).value.est <==> y in known && exists rd :: OutDetail(w, id, y, rd)
  {
    var S, rules := SelfOf(w.conts[id]), RulesFor(w, id);
    AllFilledPeers(w.now, known, S, rules, y);
    if r :| y in known && r in rules && HasEdgeRule(w.now, S, r, y) {
      var rd :| EdgeRule(w.now, S, r, y, rd);
      assert OutDetail(w, id, y, rd);
    }
    if rd :| y in known && OutDetail(w, id, y, rd) {
      var r :| r in rules && EdgeRule(w.now, S, r, y, rd);
      assert HasEdgeRule(w.now, S, r, y);
    }
  }

  lemma WaitingPeers(w: World, P: set<string>, id: string, rows: set<Waiting>, y: string)
    requires id in w.conts && (forall row :: row in rows <==> RowFrom(w, P, row)) && ValidWorld(w) && P <= w.conts.Keys
    ensures y in WaitingSources(w.now, SelfOf(w.conts[id]), rows) <==> y in P && exists rd :: InDetail(w, y, id, rd)
  {
    var D := SelfOf(w.conts[id]);
    if y in WaitingSources(w.now, D, rows) {
      var row :| row in rows && Aliased(D, row) && WaitOn(w.now, D, row).Edge? && row.src == y;
      var s :| s in P && RowOf(w, s, row);
      RowIsValid(w, s, row);
      assert InDetail(w, y, id, WaitOn(w.now, D, row).rd);
    }
    if rd :| y in P && InDetail(w, y, id, rd) {
      var row :| RowOf(w, y, row) && Aliased(D, row) && WaitOn(w.now, D, row) == Edge(rd);
      RowIsValid(w, y, row);
      assert RowFrom(w, P, row);
    }
  }

  /** What processing `x` installs joins it to `y`. */
  ghost predicate Joins(w: World, x: string, y: string)
  {
    exists rd :: Between(w, x, y, rd)
  }

  lemma EstOfParts(w: World, P: set<string>, id: string, t: Tables, rds: seq<Compiler.RuleDetails>, est: set<string>, after: Tables)
    requires ValidWorld(w) && id in w.conts && RowsMatch(w, P, t) && Parts(w, id, t, rds, est, after)
    ensures var filled := FillAll(w.now, P + {id}, SelfOf(w.conts[id]), RulesFor(w, id));
            filled.Some? && est == filled.value.est + WaitingSources(w.now, SelfOf(w.conts[id]), after.waiting)
  {
    assert Recorded(w, id, t).containers.Keys == P + {id};
  }

  lemma JoinsEitherWay(w: World, P: set<string>, id: string, rows: set<Waiting>, y: string)
    requires ValidWorld(w) && id in w.conts && P <= w.conts.Keys && FillAll(w.now, P, SelfOf(w.conts[id]), RulesFor(w, id)).Some?
    requires forall row :: row in rows <==> RowFrom(w, P, row)
    ensures y in FillAll(w.now, P, SelfOf(w.conts[id]), RulesFor(w, id)).value.est || y in WaitingSources(w.now, SelfOf(w.conts[id]), rows)
            <==> y in P && Joins(w, id, y)
  {
    OutputPeers(w, id, P, y);
    WaitingPeers(w, P, id, rows, y);
    if rd :| OutDetail(w, id, y, rd) { assert Between(w, id, y, rd); }
    if rd :| InDetail(w, y, id, rd) { assert Between(w, id, y, rd); }
    if rd :| Between(w, id, y, rd) { assert OutDetail(w, id, y, rd) || InDetail(w, y, id, rd); }
  }

  lemma PartPeers(w: World, P: set<string>, id: string, t: Tables, rds: seq<Compiler.RuleDetails>, est: set<string>, after: Tables, y: string)
    requires ValidWorld(w) && id in w.conts && P <= w.conts.Keys && RowsMatch(w, P, t) && Parts(w, id, t, rds, est, after)
    ensures y in est <==> y in P + {id} && Joins(w, id, y)
  {
    PartsKeepRows(w, P, id, t, rds, est, after);
    EstOfParts(w, P, id, t, rds, est, after);
    JoinsEitherWay(w, P + {id}, id, after.waiting, y);
  }

  lemma PartTables(w: World, id: string, t: Tables, rds: seq<Compiler.RuleDetails>, est: set<string>, after: Tables, x: string, y: string)
    requires ValidWorld(w) && id in w.conts && Parts(w, id, t, rds, est, after)
    ensures (x, y) in EstAdded(after, id, est).est <==> if x == id then y in est else (x, y) in t.est
  {
    ManagedIsSelf(w, id);
  }

  /** Processing a container records the containers it has an edge with, as itself
      installed them, forgets the relationships it had, and leaves all others. */
  lemma ProcessingRecordsPeers(w: World, order: seq<string>, id: string, quarantineFirst: bool, fw: Fw, t: Tables, fw': Fw, t': Tables)
    requires ValidWorld(w) && id in w.conts && StateAfter(w, order, fw, t)
    requires Created(w.now, w.conts[id], quarantineFirst, fw, t, fw', t')
    ensures forall y :: (id, y) in t'.est <==> y in Processed(order) + {id} && Joins(w, id, y)
    ensures forall x, y :: x != id ==> ((x, y) in t'.est <==> (x, y) in t.est)
  {
    var rds, est, after := CreatedParts(w, id, quarantineFirst, fw, t, fw', t');
    forall x, y ensures (x, y) in t'.est <==> if x == id then y in est else (x, y) in t.est { PartTables(w, id, t, rds, est, after, x, y); }
    forall y ensures y in est <==> y in Processed(order) + {id} && Joins(w, id, y) {
      PartPeers(w, Processed(order), id, t, rds, est, after, y);
    }
  }
}
