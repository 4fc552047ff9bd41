/** Byte strings as the packet matcher sees them: network byte order values,
    the byte-by-byte comparison of the kernel, and bitwise operations. */
module Bytes {

  type byte = x: int | 0 <= x < 256

  /** The value of a byte string read in network byte order. */
  function Val(b: seq<byte>): nat
  {
    if b == [] then 0 else Val(b[..|b| - 1]) * 256 + b[|b| - 1]
  }

  /** `v` written in network byte order on `n` bytes (binary.BigEndian.AppendUint16/32). */
  function Big(v: nat, n: nat): (b: seq<byte>)
    ensures |b| == n
  {
    if n == 0 then [] else Big(v / 256, n - 1) + [v % 256]
  }

  function Pow256(n: nat): (r: nat)
    ensures r > 0
  {
    if n == 0 then 1 else 256 * Pow256(n - 1)
  }

  lemma {:induction false} BigRoundTrip(v: nat, n: nat)
    requires v < Pow256(n)
    ensures Val(Big(v, n)) == v
  {
    if n > 0 {
      BigRoundTrip(v / 256, n - 1);
      assert Big(v, n)[..n - 1] == Big(v / 256, n - 1);
    }
  }

  lemma {:induction false} ValRoundTrip(b: seq<byte>)
    ensures Val(b) < Pow256(|b|)
    ensures Big(Val(b), |b|) == b
  {
    if b != [] {
      ValRoundTrip(b[..|b| - 1]);
      assert b == b[..|b| - 1] + [b[|b| - 1]];
    }
  }

  lemma ValInjective(a: seq<byte>, b: seq<byte>)
    requires |a| == |b| && Val(a) == Val(b)
    ensures a == b
  {
    ValRoundTrip(a);
    ValRoundTrip(b);
  }

  /** memcmp(a, b) < 0: the first differing byte decides. */
  predicate Precedes(a: seq<byte>, b: seq<byte>)
    requires |a| == |b|
  {
    a != [] && (a[0] < b[0] || (a[0] == b[0] && Precedes(a[1..], b[1..])))
  }

  lemma {:induction false} PrecedesByLast(a: seq<byte>, b: seq<byte>)
    requires |a| == |b| > 0
    ensures var n := |a| - 1;
            Precedes(a, b) <==> Precedes(a[..n], b[..n]) || (a[..n] == b[..n] && a[n] < b[n])
  {
    var n := |a| - 1;
    if n > 0 {
      PrecedesByLast(a[1..], b[1..]);
      assert a[1..][..n - 1] == a[..n][1..];
      assert b[1..][..n - 1] == b[..n][1..];
      assert a[..n] == [a[0]] + a[..n][1..];
      assert b[..n] == [b[0]] + b[..n][1..];
    }
  }

  /** Byte-lexicographic comparison of equally long network byte order strings
      is comparison of the numbers they stand for. */
  lemma {:induction false} PrecedesIsLess(a: seq<byte>, b: seq<byte>)
    requires |a| == |b|
    ensures Precedes(a, b) <==> Val(a) < Val(b)
  {
    if a != [] {
      var n := |a| - 1;
      PrecedesByLast(a, b);
      PrecedesIsLess(a[..n], b[..n]);
      if Val(a[..n]) == Val(b[..n]) {
        ValInjective(a[..n], b[..n]);
      }
    }
  }

  function BitAnd(a: nat, b: nat): (r: nat)
    ensures r <= a
  {
    if a == 0 then 0 else (if a % 2 == 1 && b % 2 == 1 then 1 else 0) + 2 * BitAnd(a / 2, b / 2)
  }

  function BitXor(a: nat, b: nat): (r: nat)
    ensures b == 0 ==> r == a
    decreases a + b
  {
    if a == 0 then b
    else if b == 0 then a
    else (if a % 2 == b % 2 then 0 else 1) + 2 * BitXor(a / 2, b / 2)
  }

  lemma {:induction false} BitXorBound(a: nat, b: nat, bound: nat)
    requires a < Pow2(bound) && b < Pow2(bound)
    ensures BitXor(a, b) < Pow2(bound)
    decreases bound
  {
    if a != 0 && b != 0 {
      BitXorBound(a / 2, b / 2, bound - 1);
    }
  }

  function Pow2(n: nat): nat { if n == 0 then 1 else 2 * Pow2(n - 1) }

  /** One byte of the kernel's bitwise expression: (s & mask) ^ xor. */
  function MaskXor(s: byte, mask: byte, xor: byte): byte
  {
    assert BitXor(BitAnd(s, mask), xor) < 256 by {
      assert Pow2(8) == 256;
      BitXorBound(BitAnd(s, mask), xor, 8);
    }
    BitXor(BitAnd(s, mask), xor)
  }
}
