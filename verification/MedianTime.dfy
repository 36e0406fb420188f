/** The median-time rule: GetMedianTimePast (main.h) and the timestamp check of AcceptBlock. */
module MedianTime {
  import opened Basics
  import opened BlockTree

  const MEDIAN_TIME_SPAN := 11

  // ---------------------------------------------------------------- sorting

  predicate Ordered(q: seq<int>) {
    forall i, j :: 0 <= i < j < |q| ==> q[i] <= q[j]
  }

  function Inserted(q: seq<int>, x: int): (r: seq<int>)
    ensures |r| == |q| + 1
  {
    if q == [] || x <= q[0] then [x] + q else [q[0]] + Inserted(q[1..], x)
  }

  /** std::sort. */
  function Sorted(s: seq<int>): (r: seq<int>)
    ensures |r| == |s|
    decreases |s|, 1
  {
    if s == [] then [] else SortedLast(s)
  }

  /** One step of the sort; a function of its own so that it is unfolded one step at a time. */
  function SortedLast(s: seq<int>): (r: seq<int>)
    requires s != []
    ensures |r| == |s|
    decreases |s|, 0
  {
    Inserted(Sorted(s[..|s| - 1]), s[|s| - 1])
  }

  lemma {:induction false} InsertedOrdered(q: seq<int>, x: int)
    requires Ordered(q)
    ensures Ordered(Inserted(q, x)) && forall y :: y in Inserted(q, x) <==> y in q || y == x
  {
    if q != [] && q[0] < x {
      InsertedOrdered(q[1..], x);
      var r := Inserted(q[1..], x);
      forall j | 0 <= j < |r| ensures q[0] <= r[j] {
        assert r[j] in r;
        assert r[j] in q[1..] || r[j] == x;
      }
      assert q == [q[0]] + q[1..];
    }
  }

  lemma {:induction false} SortedOrdered(s: seq<int>)
    ensures Ordered(Sorted(s))
  {
    if s != [] {
      SortedOrdered(s[..|s| - 1]);
      InsertedOrdered(Sorted(s[..|s| - 1]), s[|s| - 1]);
    }
  }

  /** How many elements are at least v. */
  function AtLeast(s: seq<int>, v: int): (n: nat)
    ensures n <= |s|
  {
    if s == [] then 0 else AtLeast(s[..|s| - 1], v) + (if s[|s| - 1] >= v then 1 else 0)
  }

  lemma {:induction false} AtLeastAppend(a: seq<int>, b: seq<int>, v: int)
    ensures AtLeast(a + b, v) == AtLeast(a, v) + AtLeast(b, v)
  {
    if b == [] {
      assert a + b == a;
    } else {
      var k := |b| - 1;
      AtLeastAppend(a, b[..k], v);
      assert (a + b)[..|a + b| - 1] == a + b[..k];
    }
  }

  lemma {:induction false} AtLeastInserted(q: seq<int>, x: int, v: int)
    ensures AtLeast(Inserted(q, x), v) == AtLeast(q, v) + (if x >= v then 1 else 0)
  {
    if q == [] || x <= q[0] {
      AtLeastAppend([x], q, v);
    } else {
      AtLeastInserted(q[1..], x, v);
      AtLeastAppend([q[0]], Inserted(q[1..], x), v);
      AtLeastAppend([q[0]], q[1..], v);
      assert q == [q[0]] + q[1..];
    }
  }

  lemma {:induction false} AtLeastSorted(s: seq<int>, v: int)
    ensures AtLeast(Sorted(s), v) == AtLeast(s, v)
  {
    if s != [] {
      AtLeastSorted(s[..|s| - 1], v);
      AtLeastInserted(Sorted(s[..|s| - 1]), s[|s| - 1], v);
    }
  }

  lemma {:induction false} NoneAtLeast(s: seq<int>, v: int)
    requires forall i :: 0 <= i < |s| ==> s[i] < v
    ensures AtLeast(s, v) == 0
  {
    if s != [] {
      NoneAtLeast(s[..|s| - 1], v);
    }
  }

  lemma {:induction false} AllAtLeast(s: seq<int>, v: int)
    requires forall i :: 0 <= i < |s| ==> s[i] >= v
    ensures AtLeast(s, v) == |s|
  {
    if s != [] {
      AllAtLeast(s[..|s| - 1], v);
    }
  }

  /** In sorted order, position i holds at least v exactly when |q| - i elements do. */
  lemma {:induction false} RankIsCount(q: seq<int>, i: nat, v: int)
    requires Ordered(q) && i < |q|
    ensures q[i] >= v <==> AtLeast(q, v) >= |q| - i
  {
    AtLeastAppend(q[..i], q[i..], v);
    assert q == q[..i] + q[i..];
    AtLeastAppend(q[..i + 1], q[i + 1..], v);
    assert q == q[..i + 1] + q[i + 1..];
    if q[i] >= v {
      AllAtLeast(q[i..], v);
    } else {
      var front := q[..i + 1];
      forall k | 0 <= k < |front| ensures front[k] < v {
        assert k < i ==> q[k] <= q[i];
      }
      NoneAtLeast(front, v);
    }
  }

  // ---------------------------------------------------------------- the median

  /** The last eleven times, or all if there are fewer. */
  function Window(times: seq<int>): (w: seq<int>)
    ensures |w| == Min(MEDIAN_TIME_SPAN, |times|)
  {
    if |times| <= MEDIAN_TIME_SPAN then times else times[|times| - MEDIAN_TIME_SPAN..]
  }

  /** GetMedianTimePast of the last block of a chain with these times. */
  function Median(times: seq<int>): int
    requires times != []
  {
    Sorted(Window(times))[|Window(times)| / 2]
  }

  lemma {:induction false} MedianIsCount(times: seq<int>, v: int)
    requires times != []
    ensures Median(times) >= v <==> AtLeast(Window(times), v) >= |Window(times)| - |Window(times)| / 2
  {
    var w := Window(times);
    AtLeastSorted(w, v);
    SortedOrdered(w);
    RankIsCount(Sorted(w), |w| / 2, v);
  }

  /** The blocks from index `from` on that are not earlier than v. */
  ghost function NotBefore(times: seq<int>, from: nat, v: int): set<int> {
    set i | from <= i < |times| && times[i] >= v
  }

  lemma {:induction false} AtLeastIsCount(times: seq<int>, from: nat, v: int)
    requires from <= |times|
    ensures AtLeast(times[from..], v) == |NotBefore(times, from, v)|
  {
    var k := |times| - 1;
    if from == |times| {
      assert NotBefore(times, from, v) == {};
    } else {
      AtLeastIsCount(times[..k], from, v);
      assert times[from..][..k - from] == times[..k][from..];
      var before := NotBefore(times[..k], from, v);
      assert NotBefore(times, from, v) == if times[k] >= v then before + {k} else before;
    }
  }

  /** Of the last eleven blocks of a chain, or of all if there are fewer, the median is at least v exactly if the
      upper half of them is, the middle one included. */
  lemma {:induction false} MedianOfLast(times: seq<int>, v: int)
    requires times != []
    ensures var n := if |times| < 11 then |times| else 11;
      Median(times) >= v <==> 2 * |NotBefore(times, |times| - n, v)| >= n
  {
    var n := if |times| < 11 then |times| else 11;
    assert Window(times) == times[|times| - n..];
    AtLeastIsCount(times, |times| - n, v);
    MedianIsCount(times, v);
  }

  /** A block later than the median of its ancestors does not lower the median. */
  lemma {:induction false} MedianStep(times: seq<int>, t: int)
    requires times != [] && t > Median(times)
    ensures Median(times + [t]) >= Median(times)
  {
    var m := Median(times);
    var w, u := Window(times), Window(times + [t]);
    MedianIsCount(times, m);
    MedianIsCount(times + [t], m);
    if |times| < MEDIAN_TIME_SPAN {
      assert u == w + [t];
      AtLeastAppend(w, [t], m);
    } else {
      assert w == [w[0]] + w[1..] && u == w[1..] + [t];
      AtLeastAppend([w[0]], w[1..], m);
      AtLeastAppend(w[1..], [t], m);
    }
  }

  /** Every block is later than the median of the blocks before it, as AcceptBlock requires. */
  ghost predicate TimesOk(times: seq<int>) {
    forall i :: 1 <= i < |times| ==> LaterAt(times, i)
  }

  ghost predicate LaterAt(times: seq<int>, i: nat)
    requires 1 <= i < |times|
  {
    times[i] > Median(times[..i])
  }

  /** The median before position k. */
  ghost function MedianAt(times: seq<int>): int -> int {
    (k: int) => if 1 <= k <= |times| then Median(times[..k]) else 0
  }

  lemma {:induction false} NeverFalls(f: int -> int, i: nat, j: nat)
    requires i <= j && forall k :: i <= k < j ==> Rises(f, k)
    ensures f(i) <= f(j)
    decreases j
  {
    if i < j {
      NeverFalls(f, i, j - 1);
      assert Rises(f, j - 1);
    }
  }

  ghost predicate Rises(f: int -> int, k: int) { f(k) <= f(k + 1) }

  /** Along an accepted chain the median never decreases. */
  lemma {:induction false} MedianMonotone(times: seq<int>, i: nat, j: nat)
    requires TimesOk(times) && 1 <= i <= j <= |times|
    ensures Median(times[..i]) <= Median(times[..j])
  {
    forall k | i <= k < j ensures Rises(MedianAt(times), k) {
      assert LaterAt(times, k);
      MedianRises(times, k);
    }
    NeverFalls(MedianAt(times), i, j);
  }

  lemma {:induction false} MedianRises(times: seq<int>, k: nat)
    requires 1 <= k < |times| && LaterAt(times, k)
    ensures Rises(MedianAt(times), k)
  {
    MedianNext(times, k);
  }

  lemma {:induction false} MedianNext(times: seq<int>, k: nat)
    requires 1 <= k < |times| && LaterAt(times, k)
    ensures Median(times[..k]) <= Median(times[..k + 1])
  {
    MedianStep(times[..k], times[k]);
    assert times[..k + 1] == times[..k] + [times[k]];
  }

  /** So every block after the first is later than the first. */
  lemma {:induction false} LaterThanGenesis(times: seq<int>, i: nat)
    requires TimesOk(times) && 1 <= i < |times|
    ensures times[i] > times[0]
  {
    MedianMonotone(times, 1, i);
    assert LaterAt(times, i);
    assert Window(times[..1]) == [times[0]];
    assert Sorted([times[0]]) == [times[0]];
  }

  // ---------------------------------------------------------------- the loop over pprev

  ghost function Times(t: Tree, p: seq<BlockId>): (r: seq<int>)
    requires forall i :: 0 <= i < |p| ==> p[i] in t
    ensures |r| == |p| && forall i :: 0 <= i < |p| ==> r[i] == t[p[i]].time
  {
    if p == [] then [] else Times(t, p[..|p| - 1]) + [t[p[|p| - 1]].time]
  }

  ghost function ChainTimes(t: Tree, genesis: BlockId, b: BlockId): (r: seq<int>)
    requires WellFormed(t, genesis) && b in t
    ensures |r| == t[b].height + 1
  {
    OnPath(t, genesis, b);
    Times(t, Path(t, genesis, b))
  }

  lemma {:induction false} OnPath(t: Tree, genesis: BlockId, b: BlockId)
    requires WellFormed(t, genesis) && b in t
    ensures forall i :: 0 <= i <= t[b].height ==> Path(t, genesis, b)[i] in t
  {
    forall i | 0 <= i <= t[b].height ensures Path(t, genesis, b)[i] in t {
      PathPrefix(t, genesis, b, i);
    }
  }

  /** GetMedianTimePast: the buffer is filled from its end backwards. */
  method GetMedianTimePast(tree: Tree, ghost genesis: BlockId, b: BlockId) returns (m: int)
    requires WellFormed(tree, genesis) && b in tree
    ensures m == Median(ChainTimes(tree, genesis, b))
  {
    ghost var p := Path(tree, genesis, b);
    ghost var times := ChainTimes(tree, genesis, b);
    var pmedian: seq<int> := [];
    var pindex := Some(b);
    var i := 0;
    while i < MEDIAN_TIME_SPAN && pindex.Some?
      invariant 0 <= i <= MEDIAN_TIME_SPAN && i <= |times|
      invariant pmedian == times[|times| - i..]
      invariant pindex == if i == |times| then None else Some(p[|times| - 1 - i])
    {
      StepBack(tree, genesis, b, |times| - 1 - i);
      pmedian := [tree[pindex.value].time] + pmedian;
      pindex := tree[pindex.value].prev;
      i := i + 1;
    }
    assert pmedian == Window(times);
    var sorted := Sorted(pmedian);
    return sorted[|sorted| / 2];
  }
}
