/** Byte strings and big-endian integers. */
module Bytes {

  type Byte = b: int | 0 <= b < 256

  type Octets = seq<Byte>

  datatype Option<+T> = None | Some(value: T)

  /** 256 to the power `width`: one more than the largest `width`-byte integer. */
  function Span(width: nat): (n: nat)
    ensures n >= 1
  {
    if width == 0 then 1 else 256 * Span(width - 1)
  }

  /** The `width` low-order bytes of `n`, most significant first. */
  function Be(n: nat, width: nat): (s: Octets)
    ensures |s| == width
    decreases width
  {
    if width == 0 then [] else Be(n / 256, width - 1) + [n % 256]
  }

  /** The integer the first `n` bytes spell, most significant first. */
  function Leading(s: Octets, n: nat): nat
    requires n <= |s|
  {
    if n == 0 then 0 else 256 * Leading(s, n - 1) + s[n - 1]
  }

  /** The integer a byte string spells, most significant byte first. */
  function Value(s: Octets): nat
  {
    Leading(s, |s|)
  }

  lemma {:induction false} LeadingAgrees(s: Octets, t: Octets, n: nat)
    requires n <= |s| && n <= |t|
    requires forall i :: 0 <= i < n ==> s[i] == t[i]
    ensures Leading(s, n) == Leading(t, n)
  {
    if n != 0 {
      LeadingAgrees(s, t, n - 1);
    }
  }

  lemma {:induction false} ValueBe(n: nat, width: nat)
    requires n < Span(width)
    ensures Value(Be(n, width)) == n
    decreases width
  {
    if width != 0 {
      ValueBe(n / 256, width - 1);
      LeadingAgrees(Be(n, width), Be(n / 256, width - 1), width - 1);
    }
  }

  lemma {:induction false} LeadingBound(s: Octets, n: nat)
    requires n <= |s|
    ensures Leading(s, n) < Span(n)
  {
    if n != 0 {
      LeadingBound(s, n - 1);
    }
  }

  lemma {:induction false} BeLeading(s: Octets, n: nat)
    requires n <= |s|
    ensures Be(Leading(s, n), n) == s[..n]
  {
    if n != 0 {
      BeLeading(s, n - 1);
      assert s[..n] == s[..n - 1] + [s[n - 1]];
    }
  }

  lemma BeValue(s: Octets)
    ensures Value(s) < Span(|s|) && Be(Value(s), |s|) == s
  {
    LeadingBound(s, |s|);
    BeLeading(s, |s|);
    assert s[..|s|] == s;
  }

  /** Distinct integers within the width have distinct spellings. */
  lemma BeInjective(a: nat, b: nat, width: nat)
    requires a < Span(width) && b < Span(width)
    requires Be(a, width) == Be(b, width)
    ensures a == b
  {
    ValueBe(a, width);
    ValueBe(b, width);
  }

  /** The same byte, or the two cases of one ASCII letter. */
  ghost predicate Alike(x: Byte, y: Byte)
  {
    x == y || ('A' as int <= x <= 'Z' as int && y == x + 32) || ('A' as int <= y <= 'Z' as int && x == y + 32)
  }

  ghost predicate AllAlike(a: Octets, b: Octets)
  {
    |a| == |b| && forall i :: 0 <= i < |a| ==> Alike(a[i], b[i])
  }

  /** Two concatenations whose left parts have equal length agree part by part. */
  lemma SplitEqual<T>(a: seq<T>, b: seq<T>, c: seq<T>, d: seq<T>)
    requires a + b == c + d && |a| == |c|
    ensures a == c && b == d
  {
    assert a == (a + b)[..|a|];
    assert c == (c + d)[..|c|];
    assert b == (a + b)[|a|..];
    assert d == (c + d)[|c|..];
  }
}
