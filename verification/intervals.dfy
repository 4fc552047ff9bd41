/** Anonymous interval sets: sorting and merging configured ranges, and the
    start/exclusive-end keys written for the merged result. One module serves
    the 16-bit (ports) and 32-bit (addresses) copies; `top` is the largest value
    of the width. */
module Intervals {

  datatype Interval = Interval(low: nat, high: nat)

  /** What configuration validation guarantees of every range. */
  predicate Valid(iv: Interval, top: nat)
  {
    iv.low <= iv.high <= top
  }

  ghost predicate AllValid(s: seq<Interval>, top: nat)
  {
    forall i :: 0 <= i < |s| ==> Valid(s[i], top)
  }

  predicate Inside(iv: Interval, x: nat)
  {
    iv.low <= x <= iv.high
  }

  ghost predicate Covers(s: seq<Interval>, x: nat)
  {
    exists i :: 0 <= i < |s| && Inside(s[i], x)
  }

  predicate LessEq(a: Interval, b: Interval)
  {
    a.low < b.low || (a.low == b.low && a.high <= b.high)
  }

  ghost predicate Sorted(s: seq<Interval>)
  {
    forall i, j :: 0 <= i < j < |s| ==> LessEq(s[i], s[j])
  }

  /** Sorted and pairwise separated by at least one uncovered value. */
  ghost predicate Separated(s: seq<Interval>)
  {
    forall i, j :: 0 <= i < j < |s| ==> s[i].high + 1 < s[j].low
  }

  ghost predicate Canonical(s: seq<Interval>, top: nat)
  {
    AllValid(s, top) && Separated(s)
  }

  // ----- canonical forms are unique -----

  lemma CoverOfTail(s: seq<Interval>, top: nat, x: nat)
    requires Canonical(s, top) && s != []
    ensures Covers(s[1..], x) <==> Covers(s, x) && x > s[0].high
  {
    if Covers(s[1..], x) {
      var i :| 0 <= i < |s[1..]| && Inside(s[1..][i], x);
      assert Inside(s[i + 1], x);
    }
    if Covers(s, x) && x > s[0].high {
      var i :| 0 <= i < |s| && Inside(s[i], x);
      assert Inside(s[1..][i - 1], x);
    }
  }

  lemma CanonicalHead(a: seq<Interval>, b: seq<Interval>, top: nat)
    requires Canonical(a, top) && Canonical(b, top)
    requires forall x: nat :: Covers(a, x) ==> Covers(b, x)
    requires a != []
    ensures b != [] && b[0].low <= a[0].low
    ensures b[0].low == a[0].low ==> a[0].high <= b[0].high
  {
    assert Inside(a[0], a[0].low) && Covers(a, a[0].low);
    assert Covers(b, a[0].low);
    if b[0].low == a[0].low {
      var y := b[0].high + 1;
      GapAfterHead(b, top);
      assert !Covers(a, y);
      assert !Inside(a[0], y);
    }
  }

  lemma GapAfterHead(b: seq<Interval>, top: nat)
    requires Canonical(b, top) && b != []
    ensures !Covers(b, b[0].high + 1)
  {
    forall i | 0 <= i < |b| ensures !Inside(b[i], b[0].high + 1) {
    }
  }

  /** Two canonical lists with the same union are the same list. */
  lemma {:induction false} CanonicalUnique(a: seq<Interval>, b: seq<Interval>, top: nat)
    requires Canonical(a, top) && Canonical(b, top)
    requires forall x: nat :: Covers(a, x) <==> Covers(b, x)
    ensures a == b
  {
    if a != [] {
      CanonicalHead(a, b, top);
      CanonicalHead(b, a, top);
      forall x: nat ensures Covers(a[1..], x) <==> Covers(b[1..], x) {
        CoverOfTail(a, top, x);
        CoverOfTail(b, top, x);
      }
      CanonicalUnique(a[1..], b[1..], top);
      assert a == [a[0]] + a[1..] && b == [b[0]] + b[1..];
    } else if b != [] {
      CanonicalHead(b, a, top);
    }
  }

  // ----- reference definition: insert one range at a time -----

  /** The canonical list for the union of a canonical list and one more range. */
  function Absorb(s: seq<Interval>, iv: Interval): seq<Interval>
    decreases |s|
  {
    if s == [] then [iv]
    else if iv.high + 1 < s[0].low then [iv] + s
    else if s[0].high + 1 < iv.low then [s[0]] + Absorb(s[1..], iv)
    else Absorb(s[1..], Interval(Min(s[0].low, iv.low), Max(s[0].high, iv.high)))
  }

  function Min(a: nat, b: nat): nat { if a <= b then a else b }
  function Max(a: nat, b: nat): nat { if a <= b then b else a }

  lemma {:induction false} AbsorbCanonical(s: seq<Interval>, iv: Interval, top: nat)
    requires Canonical(s, top) && Valid(iv, top)
    ensures Canonical(Absorb(s, iv), top)
    ensures forall i :: 0 <= i < |Absorb(s, iv)| ==> Absorb(s, iv)[i].low >= iv.low || (s != [] && Absorb(s, iv)[i].low >= s[0].low)
    ensures forall x: nat :: Covers(Absorb(s, iv), x) <==> Covers(s, x) || Inside(iv, x)
    decreases |s|
  {
    if s == [] {
      assert Absorb(s, iv)[0] == iv;
    } else if iv.high + 1 < s[0].low {
      var r := [iv] + s;
      forall x: nat ensures Covers(r, x) <==> Covers(s, x) || Inside(iv, x) { CoversCons(iv, s, x); }
    } else {
      assert s == [s[0]] + s[1..];
      forall x: nat ensures Covers(s, x) <==> Covers(s[1..], x) || Inside(s[0], x) { CoversCons(s[0], s[1..], x); }
      if s[0].high + 1 < iv.low {
        AbsorbCanonical(s[1..], iv, top);
        var t := Absorb(s[1..], iv);
        forall x: nat ensures Covers([s[0]] + t, x) <==> Covers(t, x) || Inside(s[0], x) { CoversCons(s[0], t, x); }
      } else {
        AbsorbCanonical(s[1..], Interval(Min(s[0].low, iv.low), Max(s[0].high, iv.high)), top);
      }
    }
  }

  lemma CoversCons(iv: Interval, s: seq<Interval>, x: nat)
    ensures Covers([iv] + s, x) <==> Covers(s, x) || Inside(iv, x)
  {
    if Covers(s, x) {
      var i :| 0 <= i < |s| && Inside(s[i], x);
      assert Inside(([iv] + s)[i + 1], x);
    }
    if Inside(iv, x) { assert Inside(([iv] + s)[0], x); }
  }

  /** The merged form of any list of ranges. */
  function Merged(s: seq<Interval>): seq<Interval>
  {
    if s == [] then [] else Absorb(Merged(s[..|s| - 1]), s[|s| - 1])
  }

  lemma {:induction false} MergedIsCanonicalUnion(s: seq<Interval>, top: nat)
    requires AllValid(s, top)
    ensures Canonical(Merged(s), top)
    ensures forall x: nat :: Covers(Merged(s), x) <==> Covers(s, x)
  {
    if s != [] {
      var n := |s| - 1;
      MergedIsCanonicalUnion(s[..n], top);
      AbsorbCanonical(Merged(s[..n]), s[n], top);
      forall x: nat ensures Covers(s, x) <==> Covers(s[..n], x) || Inside(s[n], x) { CoversSnoc(s, x); }
    }
  }

  lemma CoversSnoc(s: seq<Interval>, x: nat)
    requires s != []
    ensures Covers(s, x) <==> Covers(s[..|s| - 1], x) || Inside(s[|s| - 1], x)
  {
    if Covers(s[..|s| - 1], x) {
      var i :| 0 <= i < |s| - 1 && Inside(s[..|s| - 1][i], x);
      assert Inside(s[i], x);
    }
    if Covers(s, x) {
      var i :| 0 <= i < |s| && Inside(s[i], x);
      if i < |s| - 1 { assert Inside(s[..|s| - 1][i], x); }
    }
  }

  /** Configurations with equal unions merge to equal lists, whatever their order. */
  lemma MergedDependsOnUnionOnly(a: seq<Interval>, b: seq<Interval>, top: nat)
    requires AllValid(a, top) && AllValid(b, top)
    requires forall x: nat :: Covers(a, x) <==> Covers(b, x)
    ensures Merged(a) == Merged(b)
  {
    MergedIsCanonicalUnion(a, top);
    MergedIsCanonicalUnion(b, top);
    CanonicalUnique(Merged(a), Merged(b), top);
  }

  // ----- the code: sort in place, then sweep -----

  /** slices.SortFunc by (low, high), as insertion into a sorted prefix. */
  method SortIntervals(a: array<Interval>)
    modifies a
    ensures Sorted(a[..])
    ensures multiset(a[..]) == multiset(old(a[..]))
  {
    for n := 0 to a.Length
      invariant Sorted(a[..n])
      invariant multiset(a[..]) == multiset(old(a[..]))
    {
      var k := n;
      while k > 0 && !LessEq(a[k - 1], a[k])
        invariant 0 <= k <= n
        invariant forall i, j :: 0 <= i < j <= n && j != k ==> LessEq(a[i], a[j])
        invariant multiset(a[..]) == multiset(old(a[..]))
      {
        a[k - 1], a[k] := a[k], a[k - 1];
        k := k - 1;
      }
    }
    assert a[..] == a[..a.Length];
  }

  lemma CoversByContents(a: seq<Interval>, b: seq<Interval>, top: nat)
    requires multiset(a) == multiset(b)
    ensures AllValid(a, top) ==> AllValid(b, top)
    ensures forall x: nat :: Covers(a, x) ==> Covers(b, x)
  {
    forall i | 0 <= i < |b| && AllValid(a, top) ensures Valid(b[i], top) {
      assert b[i] in multiset(b);
      assert b[i] in a;
    }
    forall x: nat | Covers(a, x) ensures Covers(b, x) {
      var i :| 0 <= i < |a| && Inside(a[i], x);
      assert a[i] in multiset(a);
      assert a[i] in b;
    }
  }

  /** mergeUint16Intervals / mergeUint32Intervals: `last.high != top` guards the
      successor that would wrap around. */
  method MergeIntervals(a: array<Interval>, top: nat) returns (merged: seq<Interval>)
    requires AllValid(a[..], top)
    modifies a
    ensures Sorted(a[..]) && multiset(a[..]) == multiset(old(a[..]))
    ensures merged == Merged(old(a[..]))
    ensures Canonical(merged, top)
    ensures forall x: nat :: Covers(merged, x) <==> Covers(old(a[..]), x)
  {
    ghost var input := a[..];
    SortIntervals(a);
    ghost var sorted := a[..];
    CoversByContents(input, sorted, top);
    CoversByContents(sorted, input, top);
    merged := [];
    for i := 0 to a.Length
      invariant a[..] == sorted
      invariant Canonical(merged, top)
      invariant i > 0 ==> merged != [] && merged[|merged| - 1].low <= a[i - 1].low
      invariant i == 0 ==> merged == []
      invariant forall x: nat :: Covers(merged, x) <==> Covers(sorted[..i], x)
    {
      ghost var before := merged;
      var interval := a[i];
      assert Valid(sorted[i], top);
      assert sorted[..i + 1][..i] == sorted[..i];
      if |merged| == 0 {
        merged := [interval];
      } else {
        assert LessEq(sorted[i - 1], sorted[i]);
        var last := merged[|merged| - 1];
        if interval.low <= last.high || (last.high != top && interval.low == last.high + 1) {
          merged := merged[..|merged| - 1] + [Interval(last.low, Max(last.high, interval.high))];
        } else {
          merged := merged + [interval];
        }
      }
      forall x: nat ensures Covers(merged, x) <==> Covers(sorted[..i + 1], x) {
        CoversSnoc(sorted[..i + 1], x);
        if before == [] {
          assert merged == [] + [interval];
          CoversSnoc(merged, x);
        } else {
          CoversSnoc(merged, x);
          CoversSnoc(before, x);
          if |merged| == |before| {
            assert merged[..|merged| - 1] == before[..|before| - 1];
          } else {
            assert merged[..|merged| - 1] == before;
          }
        }
      }
    }
    assert sorted[..a.Length] == sorted;
    MergedIsCanonicalUnion(input, top);
    CanonicalUnique(merged, Merged(input), top);
  }

  // ----- the keys of the interval set -----

  /** A set element: a value, and whether it closes the preceding interval. */
  datatype Key = Key(value: nat, intervalEnd: bool)

  /** The end key is exclusive and left out when the interval reaches the top. */
  function Keys(m: seq<Interval>, top: nat): seq<Key>
  {
    if m == [] then []
    else [Key(m[0].low, false)]
         + (if m[0].high != top then [Key(m[0].high + 1, true)] else [])
         + Keys(m[1..], top)
  }

  ghost predicate Increasing(ks: seq<Key>)
  {
    forall i, j :: 0 <= i < j < |ks| ==> ks[i].value < ks[j].value
  }

  /** Entry `i` holds the greatest key not above `x`. */
  ghost predicate GreatestBelow(ks: seq<Key>, x: nat, i: int)
  {
    && 0 <= i < |ks| && ks[i].value <= x
    && forall j :: 0 <= j < |ks| && ks[j].value <= x ==> ks[j].value <= ks[i].value
  }

  /** The kernel's lookup: the greatest key not above `x` is a start. */
  ghost predicate Hits(ks: seq<Key>, x: nat)
  {
    exists i :: GreatestBelow(ks, x, i) && !ks[i].intervalEnd
  }

  lemma {:induction false} KeysIncreasing(m: seq<Interval>, top: nat)
    requires Canonical(m, top)
    ensures Increasing(Keys(m, top))
    ensures forall i :: 0 <= i < |Keys(m, top)| ==> m != [] && m[0].low <= Keys(m, top)[i].value <= top
  {
    if m != [] {
      KeysIncreasing(m[1..], top);
      assert |m| > 1 ==> m[1..][0].low > m[0].high + 1;
    }
  }

  lemma GreatestShift(ks: seq<Key>, x: nat, i: nat)
    requires Increasing(ks) && 0 < i < |ks|
    ensures GreatestBelow(ks, x, i) <==> GreatestBelow(ks[1..], x, i - 1)
  {
    var rest := ks[1..];
    if GreatestBelow(rest, x, i - 1) {
      forall j | 0 <= j < |ks| && ks[j].value <= x ensures ks[j].value <= ks[i].value {
        if j > 0 { assert rest[j - 1].value <= rest[i - 1].value; }
      }
    }
  }

  lemma HitsLater(ks: seq<Key>, x: nat)
    requires Increasing(ks) && |ks| > 1 && ks[1].value <= x
    ensures Hits(ks, x) <==> Hits(ks[1..], x)
  {
    assert !GreatestBelow(ks, x, 0);
    if Hits(ks[1..], x) {
      var i :| GreatestBelow(ks[1..], x, i) && !ks[1..][i].intervalEnd;
      GreatestShift(ks, x, i + 1);
      assert GreatestBelow(ks, x, i + 1);
    }
    if Hits(ks, x) {
      var i :| GreatestBelow(ks, x, i) && !ks[i].intervalEnd;
      GreatestShift(ks, x, i);
      assert GreatestBelow(ks[1..], x, i - 1);
    }
  }

  lemma HitsFirst(ks: seq<Key>, x: nat)
    requires Increasing(ks) && ks != [] && (|ks| == 1 || x < ks[1].value)
    ensures Hits(ks, x) <==> ks[0].value <= x && !ks[0].intervalEnd
  {
    forall j | 0 < j < |ks| ensures ks[j].value > x { assert ks[1].value <= ks[j].value; }
    if ks[0].value <= x { assert GreatestBelow(ks, x, 0); }
  }

  lemma HitsStep(m: seq<Interval>, top: nat, x: nat)
    requires Canonical(m, top) && m != [] && x <= top
    requires Increasing(Keys(m, top))
    ensures Hits(Keys(m, top), x) <==>
            Inside(m[0], x) || (|m| > 1 && m[1].low <= x && Hits(Keys(m[1..], top), x))
  {
    var ks, rest := Keys(m, top), Keys(m[1..], top);
    if m[0].high == top {
      assert |m| == 1;
      HitsFirst(ks, x);
    } else {
      assert ks[1] == Key(m[0].high + 1, true) && ks[1..][1..] == rest;
      assert |m| > 1 ==> rest[0] == Key(m[1].low, false) && ks[1..][1] == rest[0];
      if x <= m[0].high {
        HitsFirst(ks, x);
      } else {
        HitsLater(ks, x);
        if |m| > 1 && m[1].low <= x { HitsLater(ks[1..], x); } else { HitsFirst(ks[1..], x); }
      }
    }
  }

  /** Looking a value up in the emitted keys is membership in some configured
      range, up to and including the top of the width. */
  lemma {:induction false} KeysDenoteUnion(m: seq<Interval>, top: nat, x: nat)
    requires Canonical(m, top) && x <= top
    ensures Hits(Keys(m, top), x) <==> Covers(m, x)
  {
    if m != [] {
      KeysIncreasing(m, top);
      HitsStep(m, top, x);
      KeysDenoteUnion(m[1..], top, x);
      CoversHeadTail(m, x);
      if |m| > 1 && x < m[1].low { SeparatedMiss(m[1..], x); }
    }
  }

  lemma CoversHeadTail(m: seq<Interval>, x: nat)
    requires m != []
    ensures Covers(m, x) <==> Inside(m[0], x) || Covers(m[1..], x)
  {
    CoversCons(m[0], m[1..], x);
    assert m == [m[0]] + m[1..];
  }

  lemma SeparatedMiss(m: seq<Interval>, x: nat)
    requires Separated(m) && m != [] && x < m[0].low && m[0].low <= m[0].high
    ensures !Covers(m, x)
  {
  }

  /** The whole path: configured ranges, merged, written as keys, looked up. */
  lemma MergedKeysDenoteConfiguredUnion(s: seq<Interval>, top: nat, x: nat)
    requires AllValid(s, top) && x <= top
    ensures Increasing(Keys(Merged(s), top))
    ensures forall i :: 0 <= i < |Keys(Merged(s), top)| ==> Keys(Merged(s), top)[i].value <= top
    ensures Hits(Keys(Merged(s), top), x) <==> Covers(s, x)
  {
    MergedIsCanonicalUnion(s, top);
    KeysIncreasing(Merged(s), top);
    KeysDenoteUnion(Merged(s), top, x);
  }
}
