/** Which entry SelectTried offers for replacement (addrman.cpp).  It draws up to four entries, swapping each
    to the front, and returns the position where the least recently successful of them was drawn: whether
    that position still holds it depends on the draw. */
module TriedSelection {
  import opened Basics
  import opened AddrTables
  import opened AddrOperations

  /** How many entries of a bucket of `size` are inspected. */
  function Inspected(size: nat): nat { if size < 4 then size else 4 }

  /** Where the i-th entry is drawn from. */
  function DrawnAt(r: Draws, size: nat, i: nat): (p: nat)
    requires i < size
    ensures i <= p < size
  {
    i + RandInt(r(i), size - i)
  }

  /** Entry m has the first least time of success among the first n. */
  ghost predicate FirstOldest(info: map<int, Info>, q: seq<int>, n: nat, m: nat)
    requires Known(info, q) && n <= |q|
  {
    m < n && forall j :: 0 <= j < n ==>
      info[q[m]].lastSuccess <= info[q[j]].lastSuccess && (j < m ==> info[q[m]].lastSuccess < info[q[j]].lastSuccess)
  }

  /** SelectTried has drawn i entries, which are in front, and `pos` is where the oldest was drawn. */
  ghost predicate Underway(info: map<int, Info>, v: seq<int>, r: Draws, i: nat, oldest: int, pos: int)
    requires Known(info, v) && i <= |v|
  {
    if i == 0 then oldest == NONE
    else exists m: nat :: FirstOldest(info, v, i, m) && oldest == v[m] && pos == DrawnAt(r, |v|, m)
  }

  lemma {:induction false} DrawKeeps(info: map<int, Info>, v: seq<int>, r: Draws, i: nat, oldest: int, pos: int)
    requires Known(info, v) && i < |v| && Underway(info, v, r, i, oldest, pos) && NONE !in info && (oldest != NONE ==> oldest in info)
    ensures var p := DrawnAt(r, |v|, i); var w := v[p := v[i]][i := v[p]];
      && Known(info, w) && |w| == |v|
      && if oldest == NONE || info[v[p]].lastSuccess < info[oldest].lastSuccess
         then Underway(info, w, r, i + 1, v[p], p) else Underway(info, w, r, i + 1, oldest, pos)
  {
    var p := DrawnAt(r, |v|, i);
    var w := v[p := v[i]][i := v[p]];
    assert forall j :: 0 <= j < i ==> w[j] == v[j];
    if i == 0 {
      assert FirstOldest(info, w, 1, 0);
    } else {
      var m: nat :| FirstOldest(info, v, i, m) && oldest == v[m] && pos == DrawnAt(r, |v|, m);
      if info[v[p]].lastSuccess < info[oldest].lastSuccess {
        assert FirstOldest(info, w, i + 1, i);
      } else {
        assert FirstOldest(info, w, i + 1, m);
      }
    }
  }

  /** One round: the entry drawn comes to place i, and is the oldest so far if it is older than that. */
  lemma {:induction false} SelectStep(info: map<int, Info>, v: seq<int>, r: Draws, i: nat, oldest: int, pos: int)
    requires Known(info, v) && i < Inspected(|v|) && (oldest != NONE ==> oldest in info)
    ensures var p := DrawnAt(r, |v|, i); var w := v[p := v[i]][i := v[p]];
      && Known(info, w)
      && SelectFrom(info, v, r, i, oldest, pos) ==
           if oldest == NONE || info[v[p]].lastSuccess < info[oldest].lastSuccess
           then SelectFrom(info, w, r, i + 1, v[p], p) else SelectFrom(info, w, r, i + 1, oldest, pos)
  {
  }

  /** Where the bucket ends up and which position is returned depends on the times of success alone. */
  lemma {:induction false} SelectSame(a: map<int, Info>, b: map<int, Info>, v: seq<int>, r: Draws, i: nat, oldest: int, pos: int)
    requires Known(a, v) && (oldest != NONE ==> oldest in a) && a.Keys == b.Keys
    requires forall x :: x in a ==> a[x].lastSuccess == b[x].lastSuccess
    ensures Known(b, v) && SelectFrom(a, v, r, i, oldest, pos) == SelectFrom(b, v, r, i, oldest, pos)
    decreases |v| - i
  {
    if i < Inspected(|v|) {
      var p := DrawnAt(r, |v|, i);
      var w := v[p := v[i]][i := v[p]];
      SelectStep(a, v, r, i, oldest, pos);
      SelectStep(b, v, r, i, oldest, pos);
      if oldest == NONE || a[v[p]].lastSuccess < a[oldest].lastSuccess {
        SelectSame(a, b, w, r, i + 1, v[p], p);
      } else {
        SelectSame(a, b, w, r, i + 1, oldest, pos);
      }
    }
  }

  /** The bucket and the position after all rounds. */
  ghost predicate Ended(info: map<int, Info>, size: nat, r: Draws, end: (seq<int>, int)) {
    && |end.0| == size && Known(info, end.0)
    && exists o :: Underway(info, end.0, r, Inspected(size), o, end.1)
  }

  lemma {:induction false} EndedNow(info: map<int, Info>, v: seq<int>, r: Draws, oldest: int, pos: int)
    requires Known(info, v) && Underway(info, v, r, Inspected(|v|), oldest, pos) && (oldest != NONE ==> oldest in info)
    ensures Ended(info, |v|, r, SelectFrom(info, v, r, Inspected(|v|), oldest, pos))
  {
    assert SelectFrom(info, v, r, Inspected(|v|), oldest, pos) == (v, pos);
  }

  lemma {:induction false} NextRound(info: map<int, Info>, v: seq<int>, r: Draws, i: nat, oldest: int, pos: int)
    returns (w: seq<int>, o: int, at: int)
    requires Known(info, v) && i < Inspected(|v|) && Underway(info, v, r, i, oldest, pos)
    requires NONE !in info && (oldest != NONE ==> oldest in info)
    ensures |w| == |v| && Known(info, w) && (o != NONE ==> o in info) && Underway(info, w, r, i + 1, o, at)
    ensures SelectFrom(info, v, r, i, oldest, pos) == SelectFrom(info, w, r, i + 1, o, at)
  {
    var p := DrawnAt(r, |v|, i);
    w := v[p := v[i]][i := v[p]];
    DrawKeeps(info, v, r, i, oldest, pos);
    SelectStep(info, v, r, i, oldest, pos);
    if oldest == NONE || info[v[p]].lastSuccess < info[oldest].lastSuccess {
      o, at := v[p], p;
    } else {
      o, at := oldest, pos;
    }
  }

  lemma {:induction false} SelectsFirstOldest(info: map<int, Info>, v: seq<int>, r: Draws, i: nat, oldest: int, pos: int)
    requires Known(info, v) && i <= Inspected(|v|) && Underway(info, v, r, i, oldest, pos)
    requires NONE !in info && (oldest != NONE ==> oldest in info)
    ensures Ended(info, |v|, r, SelectFrom(info, v, r, i, oldest, pos))
    decreases |v| - i
  {
    if i == Inspected(|v|) {
      EndedNow(info, v, r, oldest, pos);
    } else {
      var w, o, at := NextRound(info, v, r, i, oldest, pos);
      SelectsFirstOldest(info, w, r, i + 1, o, at);
    }
  }

  lemma {:induction false} OldestOf(info: map<int, Info>, q: seq<int>, r: Draws, p: int) returns (m: nat)
    requires Known(info, q) && q != [] && exists o :: Underway(info, q, r, Inspected(|q|), o, p)
    ensures FirstOldest(info, q, Inspected(|q|), m) && p == DrawnAt(r, |q|, m)
  {
    var o :| Underway(info, q, r, Inspected(|q|), o, p);
    var k: nat :| FirstOldest(info, q, Inspected(|q|), k) && p == DrawnAt(r, |q|, k);
    return k;
  }

  /** Entry m of the inspected ones, which SelectTried leaves in front, is the oldest, the first of them if
      several are.  The position returned is where it was drawn, which holds it now exactly if it was drawn
      in its place. */
  lemma {:induction false} SelectsOldestIff(info: map<int, Info>, v: seq<int>, r: Draws) returns (m: nat)
    requires Known(info, v) && NONE !in info && v != [] && Distinct(v)
    ensures m < Inspected(|v|)
    ensures var (q, p) := SelectFrom(info, v, r, 0, NONE, NONE);
      && Permuted(v, q) && Known(info, q) && FirstOldest(info, q, Inspected(|v|), m)
      && p == DrawnAt(r, |v|, m) && (q[p] == q[m] <==> DrawnAt(r, |v|, m) == m)
  {
    var (q, p) := SelectFrom(info, v, r, 0, NONE, NONE);
    SelectsFirstOldest(info, v, r, 0, NONE, NONE);
    SelectFromFacts(info, v, r);
    PermutedDistinct(v, q);
    m := OldestOf(info, q, r, p);
  }

  /** Of two entries the first draw finds the older one in the second place: the younger one is offered. */
  lemma {:induction false} YoungerIsOffered(info: map<int, Info>, younger: int, older: int, r: Draws)
    requires NONE !in info && younger in info && older in info && info[older].lastSuccess < info[younger].lastSuccess
    requires r(0) == 1
    ensures var (q, p) := SelectFrom(info, [younger, older], r, 0, NONE, NONE);
      0 <= p < |q| && q[p] == younger
  {
    var v, w := [younger, older], [older, younger];
    assert RandInt(r(0), 2) == 1 && RandInt(r(1), 1) == 0;
    assert v[1 := v[0]][0 := v[1]] == w && w[1 := w[1]][1 := w[1]] == w;
    SelectStep(info, v, r, 0, NONE, NONE);
    SelectStep(info, w, r, 1, older, 1);
    assert SelectFrom(info, w, r, 2, older, 1) == (w, 1);
  }
}
