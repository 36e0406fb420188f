/** What GetAddr_ can return (addrman.cpp): its shuffle, cut short, favours no selection and no order in
    the sense that every one can come out. */
module AddrSampling {
  import opened Basics
  import opened AddrTables
  import opened AddrOperations

  lemma {:induction false} OneSwap(t: Tables, r: Draws, n: nat, count: nat, p: nat)
    requires Indexed(t) && n < count <= |t.random| && p == RandInt(r(n), |t.random| - n) + n
    ensures Known(t.info, t.random) && CanSwap(t, n, p)
    ensures var u := Swapped(t, n, p);
      && Indexed(u) && |u.random| == |t.random| && Known(u.info, u.random) && u.random[..n] == t.random[..n]
      && ShuffledFrom(t, r, n, count) == ShuffledFrom(u, r, n + 1, count)
  {
    SwappedIndexed(t, n, p);
    ShuffleStep(t, r, n, count, p, Swapped(t, n, p));
  }

  /** The shuffle from place n on leaves the places before it alone. */
  lemma {:induction false} ShuffleStays(t: Tables, r: Draws, n: nat, count: nat)
    requires Indexed(t) && n <= count <= |t.random|
    ensures Known(t.info, t.random) && ShuffledFrom(t, r, n, count).random[..n] == t.random[..n]
    decreases count - n
  {
    if n < count {
      var p := RandInt(r(n), |t.random| - n) + n;
      OneSwap(t, r, n, count, p);
      var u := Swapped(t, n, p);
      ShuffleStays(u, r, n + 1, count);
      assert u.random[..n + 1][..n] == u.random[..n];
    }
  }

  /** Only the draws from place n on matter. */
  lemma {:induction false} ShuffleSame(t: Tables, r: Draws, q: Draws, n: nat, count: nat)
    requires Indexed(t) && n <= count <= |t.random| && forall i: nat :: i >= n ==> r(i) == q(i)
    ensures Known(t.info, t.random) && ShuffledFrom(t, r, n, count) == ShuffledFrom(t, q, n, count)
    decreases count - n
  {
    if n < count {
      var p := RandInt(r(n), |t.random| - n) + n;
      OneSwap(t, r, n, count, p);
      OneSwap(t, q, n, count, p);
      ShuffleSame(Swapped(t, n, p), r, q, n + 1, count);
    }
  }

  /** Different entries from place n on. */
  ghost predicate Selection(t: Tables, n: nat, goal: seq<int>)
    requires n <= |t.random|
  {
    Distinct(goal) && forall i :: 0 <= i < |goal| ==> goal[i] in t.random[n..]
  }

  /** Swapping the first wanted entry to place n leaves the others behind it. */
  lemma {:induction false} SelectionNext(t: Tables, n: nat, p: nat, goal: seq<int>)
    requires Indexed(t) && n <= p < |t.random| && goal != [] && Selection(t, n, goal) && t.random[p] == goal[0]
    ensures CanSwap(t, n, p) && Selection(Swapped(t, n, p), n + 1, goal[1..]) && Swapped(t, n, p).random[n] == goal[0]
  {
    var u := Swapped(t, n, p);
    forall i | 0 <= i < |goal| - 1 ensures goal[1..][i] in u.random[n + 1..] {
      var y := goal[i + 1];
      assert y in t.random[n..] && y != goal[0];
      var q :| n <= q < |t.random| && t.random[q] == y;
      assert u.random[if q == n then p else q] == y;
    }
  }

  /** Where the first wanted entry is; after the swap with place n the others can follow. */
  lemma {:induction false} FirstWanted(t: Tables, n: nat, goal: seq<int>) returns (p: nat)
    requires Indexed(t) && n < |t.random| && goal != [] && Selection(t, n, goal)
    ensures n <= p < |t.random| && CanSwap(t, n, p)
    ensures var u := Swapped(t, n, p);
      && Indexed(u) && |u.random| == |t.random| && Known(u.info, u.random)
      && u.random[n] == goal[0] && Selection(u, n + 1, goal[1..])
  {
    assert goal[0] in t.random[n..];
    p :| n <= p < |t.random| && t.random[p] == goal[0];
    SelectionNext(t, n, p, goal);
    SwappedIndexed(t, n, p);
  }

  /** The draws of `rest`, but d as draw n. */
  ghost function DrawBefore(rest: Draws, n: nat, d: nat): (r: Draws)
    ensures r(n) == d && forall i: nat :: i >= n + 1 ==> r(i) == rest(i)
  {
    (i: nat) => if i == n then d else rest(i)
  }

  /** GetAddr_ can return any of the known addresses in any order: some draws bring just these entries to the
      front, for every choice of that many and every order of them. */
  lemma {:induction false} EveryOrderComesOut(t: Tables, n: nat, count: nat, goal: seq<int>) returns (r: Draws)
    requires Indexed(t) && n <= count <= |t.random| && |goal| == count - n && Selection(t, n, goal)
    ensures Known(t.info, t.random) && ShuffledFrom(t, r, n, count).random[n..count] == goal
    decreases count - n
  {
    if n == count {
      r := (i: nat) => 0;
      assert goal == [];
    } else {
      var p := FirstWanted(t, n, goal);
      var rest := EveryOrderComesOut(Swapped(t, n, p), n + 1, count, goal[1..]);
      r := DrawBefore(rest, n, p - n);
      DrawnFirst(t, r, rest, n, count, p, goal);
    }
  }

  lemma {:induction false} DrawnFirst(t: Tables, r: Draws, rest: Draws, n: nat, count: nat, p: nat, goal: seq<int>)
    requires Indexed(t) && n < count <= |t.random| && n <= p < |t.random| && r(n) == p - n && goal != []
    requires forall i: nat :: i >= n + 1 ==> r(i) == rest(i)
    requires CanSwap(t, n, p) && Swapped(t, n, p).random[n] == goal[0] && |Swapped(t, n, p).random| == |t.random|
    requires Known(Swapped(t, n, p).info, Swapped(t, n, p).random)
    requires ShuffledFrom(Swapped(t, n, p), rest, n + 1, count).random[n + 1..count] == goal[1..]
    ensures Known(t.info, t.random) && ShuffledFrom(t, r, n, count).random[n..count] == goal
  {
    var u := Swapped(t, n, p);
    OneSwap(t, r, n, count, p);
    ShuffleSame(u, r, rest, n + 1, count);
    ShuffleStays(u, rest, n + 1, count);
    FirstAndRest(ShuffledFrom(u, rest, n + 1, count).random, u.random, n, count, goal);
  }

  lemma {:induction false} FirstAndRest(s: seq<int>, w: seq<int>, n: nat, count: nat, goal: seq<int>)
    requires n < count <= |s| == |w| && goal != [] && s[..n + 1] == w[..n + 1] && w[n] == goal[0] && s[n + 1..count] == goal[1..]
    ensures s[n..count] == goal
  {
    assert s[..n + 1][n] == w[..n + 1][n];
    assert s[n..count] == [s[n]] + s[n + 1..count];
  }
}
