/** Order independence: exactly when, for a fixed state of Docker, all orders of
    processing end with the same rules, and so treat every packet alike. */
module Confluence {
  import opened Nft
  import opened Names
  import opened Chains
  import opened Manager
  import opened Order
  import opened Independence
  import opened Canonical
  import opened Completion

  predicate IsOurs(P: set<string>, c: string)
  {
    c == MAIN || exists id :: id in P && c == ChainName(id)
  }

  ghost predicate Holds(fw: Fw, c: string, r: Rule)
  {
    c in fw.chains && Has(fw.chains[c], r)
  }

  /** The main chain and the containers' chains hold the same rules, up to log text. */
  ghost predicate SameRules(P: set<string>, fw: Fw, fw': Fw)
  {
    forall c, r :: IsOurs(P, c) ==> (Holds(fw, c, r) <==> Holds(fw', c, r))
  }

  ghost predicate SameEnd(w: World, a: seq<string>, as_: seq<Moment>, b: seq<string>, bs: seq<Moment>)
  {
    IsHistory(w, a, as_) && IsHistory(w, b, bs) && Processed(a) == Processed(b) ==>
      SameRules(Processed(a), as_[|a|].fw, bs[|b|].fw)
  }

  /** Histories that processed the same containers, in whatever order and however
      often, end with the same rules. */
  ghost predicate OrderIndependent(w: World)
  {
    forall a, as_, b, bs :: SameEnd(w, a, as_, b, bs)
  }

  // ----- what belongs into a chain, whatever was later -----

  lemma FrontsAgree(w: World, a: seq<string>, b: seq<string>, c: string, r: Rule)
    requires Symmetric(w) && Processed(a) == Processed(b) && FrontRule(w, a, c, r)
    ensures FrontRule(w, b, c, r)
  {
    if LaterFront(w, a, c, r) {
      var x, y :| Later(a, x, y) && BetweenRule(w, x, y, c, r);
      OneIsLater(a, x, y);
      OneIsLater(b, x, y);
      if !Later(b, x, y) { assert Later(b, y, x) && BetweenRule(w, y, x, c, r); }
    }
  }

  lemma ShapesAgree(w: World, a: seq<string>, b: seq<string>, id: string, fa: Fw, fb: Fw, r: Rule)
    requires Symmetric(w) && Processed(a) == Processed(b) && HasShape(w, a, id, fa) && HasShape(w, b, id, fb)
    requires Holds(fa, ChainName(id), r)
    ensures Holds(fb, ChainName(id), r)
  {
    var c := ChainName(id);
    var x :| IsFront(w, a, id, x) && fa.chains[c] == x + Tail(w, id);
    var y :| IsFront(w, b, id, y) && fb.chains[c] == y + Tail(w, id);
    HasAppend(x, Tail(w, id), r);
    HasAppend(y, Tail(w, id), r);
    if Has(x, r) { FrontsAgree(w, a, b, c, r); }
  }

  lemma MainsAgree(w: World, P: set<string>, fa: Fw, fb: Fw, r: Rule)
    requires MAIN in fa.chains && MainShape(w, P, fa.chains[MAIN]) && MAIN in fb.chains && MainShape(w, P, fb.chains[MAIN])
    requires Holds(fa, MAIN, r)
    ensures Holds(fb, MAIN, r)
  {
    var a, b := fa.chains[MAIN], fb.chains[MAIN];
    assert a == a[..2] + a[2..] && b == b[..2] + b[2..];
    var x :| x in a && StripRule(x) == r;
    assert x in b;
  }

  lemma SymmetricChain(w: World, a: seq<string>, ma: Moment, b: seq<string>, mb: Moment, c: string, r: Rule)
    requires ValidWorld(w) && Symmetric(w) && Processed(a) == Processed(b)
    requires StateAfter(w, a, ma.fw, ma.t) && StateAfter(w, b, mb.fw, mb.t)
    requires IsOurs(Processed(a), c) && Holds(ma.fw, c, r)
    ensures Holds(mb.fw, c, r)
  {
    if c == MAIN {
      MainsAgree(w, Processed(a), ma.fw, mb.fw, r);
    } else {
      var id :| id in Processed(a) && c == ChainName(id);
      assert HasShape(w, a, id, ma.fw) && HasShape(w, b, id, mb.fw);
      ShapesAgree(w, a, b, id, ma.fw, mb.fw, r);
    }
  }

  lemma SymmetricEnds(w: World, a: seq<string>, as_: seq<Moment>, b: seq<string>, bs: seq<Moment>)
    requires ValidWorld(w) && Symmetric(w) && IsHistory(w, a, as_) && IsHistory(w, b, bs) && Processed(a) == Processed(b)
    ensures forall c, r :: IsOurs(Processed(a), c) && Holds(as_[|a|].fw, c, r) ==> Holds(bs[|b|].fw, c, r)
  {
    HistoryIsCanonical(w, a, as_);
    HistoryIsCanonical(w, b, bs);
    forall c, r | IsOurs(Processed(a), c) && Holds(as_[|a|].fw, c, r) ensures Holds(bs[|b|].fw, c, r) {
      SymmetricChain(w, a, as_[|a|], b, bs[|b|], c, r);
    }
  }

  lemma SymmetricIsIndependent(w: World)
    requires ValidWorld(w) && Symmetric(w)
    ensures OrderIndependent(w)
  {
    forall a, as_, b, bs ensures SameEnd(w, a, as_, b, bs) {
      if IsHistory(w, a, as_) && IsHistory(w, b, bs) && Processed(a) == Processed(b) {
        SymmetricEnds(w, a, as_, b, bs);
        SymmetricEnds(w, b, bs, a, as_);
      }
    }
  }

  // ----- two containers, one after the other -----

  /** `x` was processed, then `y`, and nothing else. */
  ghost predicate IsPair(order: seq<string>, x: string, y: string)
  {
    x != y && Processed(order) == {x, y} && forall u, v :: Later(order, u, v) <==> u == y && v == x
  }

  lemma PairOrder(x: string, y: string) returns (order: seq<string>)
    requires x != y
    ensures order == [x, y] && IsPair(order, x, y)
  {
    order := [x, y];
    assert order[..1] == [x] && [x][..0] == [];
    assert Processed([x]) == {x};
    assert forall u, v :: !Later([], u, v);
    assert forall u, v :: !Later([x], u, v);
  }

  lemma PairFront(w: World, order: seq<string>, x: string, y: string, id: string, r: Rule)
    requires ValidWorld(w) && IsPair(order, x, y) && ValidID(id) && r.tag != id
    ensures FrontRule(w, order, ChainName(id), r) <==> BetweenRule(w, y, x, ChainName(id), r)
  {
    var c := ChainName(id);
    if OwnFront(w, {x, y}, c, r) {
      var u, rd :| u in {x, y} && OwnDetail(w, u, rd) && Contributes(rd, c, r);
      OwnTags(w, u, rd, c, r);
      ChainNameInjective(u, id);
    }
    if BetweenRule(w, y, x, c, r) { assert Later(order, y, x); }
  }

  lemma ShapeHolds(w: World, order: seq<string>, id: string, fw: Fw, r: Rule)
    requires ValidWorld(w) && HasShape(w, order, id, fw) && r.tag != id
    ensures Holds(fw, ChainName(id), r) <==> FrontRule(w, order, ChainName(id), r)
  {
    var front :| IsFront(w, order, id, front) && fw.chains[ChainName(id)] == front + Tail(w, id);
    HasAppend(front, Tail(w, id), r);
    if Has(Tail(w, id), r) { TailTags(w, id, r); }
  }

  /** A rule between the two is in the chains exactly if the later one installed it. */
  lemma PairEnds(w: World, order: seq<string>, x: string, y: string, ms: seq<Moment>, id: string, r: Rule)
    requires ValidWorld(w) && IsPair(order, x, y) && IsHistory(w, order, ms) && id in {x, y} && r.tag != id
    ensures Holds(ms[|order|].fw, ChainName(id), r) <==> BetweenRule(w, y, x, ChainName(id), r)
  {
    HistoryIsCanonical(w, order, ms);
    assert HasShape(w, order, id, ms[|order|].fw);
    ManagedIsSelf(w, id);
    ShapeHolds(w, order, id, ms[|order|].fw, r);
    PairFront(w, order, x, y, id, r);
  }

  lemma TailTags(w: World, id: string, r: Rule)
    requires ValidWorld(w) && id in w.conts && Has(Tail(w, id), r)
    ensures r.tag == id
  {
    var x :| x in Tail(w, id) && StripRule(x) == r;
    if x in PortRules(w, id, ChainName(id)) { PortRulesAreOwn(w, id, ChainName(id), x); }
  }

  lemma PairCompletes(w: World, x: string, y: string, id: string, r: Rule) returns (order: seq<string>, ms: seq<Moment>)
    requires ValidWorld(w) && Processable(w) && x in w.conts && y in w.conts && x != y && id in {x, y} && r.tag != id
    ensures IsPair(order, x, y) && IsHistory(w, order, ms)
    ensures Holds(ms[|order|].fw, ChainName(id), r) <==> BetweenRule(w, y, x, ChainName(id), r)
  {
    order := PairOrder(x, y);
    FreshStartIsRegular(w);
    ms := EveryOrderCompletes(w, order, FreshStart());
    PairEnds(w, order, x, y, ms, id, r);
  }

  lemma SamePair(a: seq<string>, b: seq<string>, x: string, y: string, id: string)
    requires IsPair(a, y, x) && IsPair(b, x, y) && id in {x, y}
    ensures Processed(a) == Processed(b) && IsOurs(Processed(a), ChainName(id))
  {
    assert id in Processed(a);
  }

  lemma BetweenIsOurs(w: World, x: string, y: string, c: string, r: Rule) returns (id: string)
    requires ValidWorld(w) && BetweenRule(w, x, y, c, r)
    ensures x != y && x in w.conts && y in w.conts && id in {x, y} && c == ChainName(id) && r.tag != id
  {
    var rd :| Between(w, x, y, rd) && Contributes(rd, c, r);
    BetweenTags(w, x, y, rd, c, r);
    id := if c == ChainName(x) && r.tag == y then x else y;
  }

  /** A rule that only one of two containers installs makes the two orders of
      processing them end differently. */
  lemma AsymmetryShows(w: World, x: string, y: string, c: string, r: Rule)
    returns (a: seq<string>, as_: seq<Moment>, b: seq<string>, bs: seq<Moment>)
    requires ValidWorld(w) && Processable(w) && BetweenRule(w, x, y, c, r) && !BetweenRule(w, y, x, c, r)
    ensures IsPair(a, y, x) && IsHistory(w, a, as_) && IsPair(b, x, y) && IsHistory(w, b, bs)
    ensures Processed(a) == Processed(b) && IsOurs(Processed(a), c) && Holds(as_[|a|].fw, c, r) && !Holds(bs[|b|].fw, c, r)
  {
    var id := BetweenIsOurs(w, x, y, c, r);
    a, as_ := PairCompletes(w, y, x, id, r);
    b, bs := PairCompletes(w, x, y, id, r);
    SamePair(a, b, x, y, id);
  }

  lemma EndsAgree(w: World, a: seq<string>, as_: seq<Moment>, b: seq<string>, bs: seq<Moment>, c: string, r: Rule)
    requires OrderIndependent(w) && IsHistory(w, a, as_) && IsHistory(w, b, bs) && Processed(a) == Processed(b)
    requires IsOurs(Processed(a), c)
    ensures Holds(as_[|a|].fw, c, r) <==> Holds(bs[|b|].fw, c, r)
  {
    assert SameEnd(w, a, as_, b, bs);
  }

  lemma IndependentIsSymmetric(w: World)
    requires ValidWorld(w) && Processable(w) && OrderIndependent(w)
    ensures Symmetric(w)
  {
    forall x, y, c, r | BetweenRule(w, x, y, c, r) ensures BetweenRule(w, y, x, c, r) {
      if !BetweenRule(w, y, x, c, r) {
        var a, as_, b, bs := AsymmetryShows(w, x, y, c, r);
        EndsAgree(w, a, as_, b, bs, c, r);
      }
    }
  }

  /** Order independence, exactly: containers that can all be processed end with
      the same rules in every order if and only if each rule that finds its
      destination under a name the destination does not look for, and each row
      taken up by a container its rule did not find, gives only what another rule
      gives as well. */
  lemma OrderIndependentExactly(w: World)
    requires ValidWorld(w) && Processable(w)
    ensures OrderIndependent(w) <==> Covered(w)
  {
    SymmetricExactly(w);
    if Covered(w) { SymmetricIsIndependent(w); }
    if OrderIndependent(w) { IndependentIsSymmetric(w); }
  }

  /** In particular when no rule hits one of the gaps between the names it can match
      and the names its destination looks for. */
  lemma OrderDoesNotMatter(w: World)
    requires ValidWorld(w) && Steady(w) && forall s, d, r :: !HitsGap(w, s, d, r)
    ensures OrderIndependent(w)
    ensures (forall id :: id in w.conts ==> Connected(w, id)) ==> Processable(w)
  {
    NoGapsMeansCovered(w);
    SymmetricExactly(w);
    SymmetricIsIndependent(w);
  }
}
