/** Types and small helpers shared by every part of the model. */
module Basics {

  datatype Option<+T> = None | Some(value: T)

  function Min(a: int, b: int): (m: int)
    ensures m <= a && m <= b && (m == a || m == b)
  {
    if a < b then a else b
  }

  function Max(a: int, b: int): (m: int)
    ensures a <= m && b <= m && (m == a || m == b)
  {
    if a < b then b else a
  }

  /** No element occurs twice. */
  ghost predicate Distinct<T>(s: seq<T>) {
    forall i, j :: 0 <= i < j < |s| ==> s[i] != s[j]
  }

  /** The first elements, one more at a time. */
  lemma {:induction false} PrefixNext<T>(s: seq<T>, n: nat)
    requires n < |s|
    ensures s[..n + 1] == s[..n] + [s[n]] && s[..n + 1][..n] == s[..n]
  {
  }

  lemma {:induction false} PrefixAll<T>(s: seq<T>)
    ensures s[..|s|] == s
  {
  }

  function Reversed<T>(s: seq<T>): (r: seq<T>)
    ensures |r| == |s| && forall i :: 0 <= i < |s| ==> r[i] == s[|s| - 1 - i]
  {
    seq(|s|, i requires 0 <= i < |s| => s[|s| - 1 - i])
  }

  lemma {:induction false} ReversedSame<T>(s: seq<T>)
    ensures multiset(Reversed(s)) == multiset(s)
  {
    if s != [] {
      var k := |s| - 1;
      ReversedSame(s[..k]);
      assert Reversed(s) == [s[k]] + Reversed(s[..k]);
      assert s == s[..k] + [s[k]];
    }
  }

  function Pow2(n: nat): (p: nat)
    ensures p >= 1
  {
    if n == 0 then 1 else 2 * Pow2(n - 1)
  }

  /** A stream of random draws. */
  type Draws = nat -> nat

  /** GetRandInt(n), from a draw: its remainder by n. */
  function RandInt(draw: nat, n: nat): (k: nat)
    requires n > 0
    ensures k < n
    decreases draw
  {
    if draw < n then draw else RandInt(draw - n, n)
  }
}
