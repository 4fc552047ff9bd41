/** Optional values and results with an error. */
module Wrappers {
  datatype Option<+T> = None | Some(value: T)

  datatype Result<+T, +E> = Ok(value: T) | Err(error: E)

  function Map<A, B>(f: A -> B, s: seq<A>): (r: seq<B>)
    ensures |r| == |s| && forall i :: 0 <= i < |s| ==> r[i] == f(s[i])
  {
    seq(|s|, i requires 0 <= i < |s| => f(s[i]))
  }

  lemma MapAppend<A, B>(f: A -> B, a: seq<A>, b: seq<A>)
    ensures Map(f, a + b) == Map(f, a) + Map(f, b)
  {
  }

  /** Concatenation of a list of lists, by its last element. */
  function Concat<T>(ss: seq<seq<T>>): seq<T>
  {
    if ss == [] then [] else Concat(ss[..|ss| - 1]) + ss[|ss| - 1]
  }

  lemma {:induction false} ConcatContents<T>(ss: seq<seq<T>>)
    ensures forall i :: 0 <= i < |ss| ==> forall x :: x in ss[i] ==> x in Concat(ss)
    ensures forall x :: x in Concat(ss) ==> exists i :: 0 <= i < |ss| && x in ss[i]
  {
    if ss != [] {
      var n := |ss| - 1;
      ConcatContents(ss[..n]);
      forall i, x | 0 <= i < |ss| && x in ss[i] ensures x in Concat(ss) {
        if i < n { assert ss[..n][i] == ss[i]; }
      }
      forall x | x in Concat(ss) ensures exists i :: 0 <= i < |ss| && x in ss[i] {
        if x !in ss[n] {
          var i :| 0 <= i < |ss[..n]| && x in ss[..n][i];
          assert x in ss[i];
        }
      }
    }
  }

  lemma {:induction false} ConcatAppend<T>(a: seq<seq<T>>, b: seq<seq<T>>)
    ensures Concat(a + b) == Concat(a) + Concat(b)
  {
    if b == [] {
      assert a + b == a;
    } else {
      ConcatAppend(a, b[..|b| - 1]);
      assert (a + b)[..|a + b| - 1] == a + b[..|b| - 1];
    }
  }

  /** Concatenation of lists that may be missing: one missing list is an error. */
  function ConcatAll<T>(parts: seq<Option<seq<T>>>): Option<seq<T>>
  {
    if parts == [] then Some([])
    else
      var front, last := ConcatAll(parts[..|parts| - 1]), parts[|parts| - 1];
      if front.None? || last.None? then None else Some(front.value + last.value)
  }

  lemma {:induction false} ConcatAllContents<T>(parts: seq<Option<seq<T>>>)
    ensures ConcatAll(parts).Some? <==> forall i :: 0 <= i < |parts| ==> parts[i].Some?
    ensures ConcatAll(parts).Some? ==>
              forall x :: x in ConcatAll(parts).value <==> exists i :: 0 <= i < |parts| && parts[i].Some? && x in parts[i].value
  {
    if parts != [] {
      var n := |parts| - 1;
      ConcatAllContents(parts[..n]);
      if ConcatAll(parts).Some? {
        var front := ConcatAll(parts[..n]).value;
        forall x ensures x in ConcatAll(parts).value <==> exists i :: 0 <= i < |parts| && parts[i].Some? && x in parts[i].value {
          if x in front {
            var i :| 0 <= i < n && parts[..n][i].Some? && x in parts[..n][i].value;
            assert x in parts[i].value;
          }
          if i :| 0 <= i < |parts| && parts[i].Some? && x in parts[i].value {
            if i < n { assert parts[..n][i] == parts[i]; }
          }
        }
      }
    }
  }

  lemma ConcatAllStep<T>(parts: seq<Option<seq<T>>>, i: nat)
    requires i < |parts| && ConcatAll(parts[..i]).Some?
    ensures parts[i].Some? ==> ConcatAll(parts[..i + 1]) == Some(ConcatAll(parts[..i]).value + parts[i].value)
    ensures parts[i].None? ==> ConcatAll(parts) == None
  {
    assert parts[..i + 1][..i] == parts[..i];
    if parts[i].None? { ConcatAllContents(parts); }
  }
}
