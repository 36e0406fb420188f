/** Block locators (CBlockLocator, main.h). */
module Locator {
  import opened Basics
  import opened BlockTree
  import opened ChainEngine

  /** How far back entry k of a locator is: one by one up to 11, then in doubling steps. */
  function Distance(k: nat): nat {
    if k <= 11 then k else 9 + Pow2(k - 10)
  }

  /** The step from entry k to the next. */
  function StepAfter(k: nat): (s: nat)
    ensures Distance(k + 1) == Distance(k) + s && s >= 1
  {
    if k <= 10 then 1 else Pow2(k - 10)
  }

  lemma {:induction false} DistanceGrows(i: nat, k: nat)
    requires i <= k
    ensures Distance(i) + (k - i) <= Distance(k)
    decreases k
  {
    if i < k {
      DistanceGrows(i, k - 1);
      var _ := StepAfter(k - 1);
    }
  }

  /** `v` lists the blocks of chain `p` at the locator distances from its end, and then genesis. */
  ghost predicate IsLocator(p: seq<BlockId>, v: seq<BlockId>) {
    && p != [] && v != [] && v[|v| - 1] == p[0] && Distance(|v| - 1) >= |p|
    && forall k :: 0 <= k < |v| - 1 ==> EntryOk(p, v, k)
  }

  ghost predicate EntryOk(p: seq<BlockId>, v: seq<BlockId>, k: nat)
    requires k < |v|
  {
    Distance(k) < |p| && v[k] == p[|p| - 1 - Distance(k)]
  }

  /** CBlockLocator::Set. */
  method Set(tree: Tree, genesis: BlockId, b: BlockId) returns (vHave: seq<BlockId>)
    requires WellFormed(tree, genesis) && b in tree
    ensures IsLocator(Path(tree, genesis, b), vHave)
  {
    ghost var p := Path(tree, genesis, b);
    vHave := [];
    var nStep := 1;
    var pindex := Some(b);
    while pindex.Some?
      invariant nStep == StepAfter(|vHave|)
      invariant forall k :: 0 <= k < |vHave| ==> EntryOk(p, vHave, k)
      invariant if pindex.Some? then Distance(|vHave|) < |p| && pindex.value == p[|p| - 1 - Distance(|vHave|)]
                else Distance(|vHave|) >= |p|
      decreases |p| - Distance(|vHave|)
    {
      ghost var n := |vHave|;
      ghost var before := vHave;
      vHave := vHave + [pindex.value];
      pindex := StepsBack(tree, genesis, b, pindex.value, |p| - 1 - Distance(n), nStep);
      if |vHave| > 10 {
        nStep := nStep * 2;
      }
      forall k | 0 <= k < |vHave| ensures EntryOk(p, vHave, k) {
        assert k < n ==> EntryOk(p, before, k);
      }
    }
    ghost var entries := vHave;
    vHave := vHave + [genesis];
    forall k | 0 <= k < |entries| ensures EntryOk(p, vHave, k) {
      assert EntryOk(p, entries, k);
    }
  }

  /** The inner loop: n steps along pprev from position `at` of the path, or off its end. */
  method StepsBack(tree: Tree, ghost genesis: BlockId, ghost b: BlockId, from: BlockId, ghost at: nat, n: nat)
    returns (pindex: Option<BlockId>)
    requires WellFormed(tree, genesis) && b in tree && at <= tree[b].height && from == Path(tree, genesis, b)[at]
    ensures pindex == if n <= at then Some(Path(tree, genesis, b)[at - n]) else None
  {
    ghost var p := Path(tree, genesis, b);
    pindex := Some(from);
    var i := 0;
    while pindex.Some? && i < n
      invariant 0 <= i <= n && pindex == if i <= at then Some(p[at - i]) else None
    {
      StepBack(tree, genesis, b, at - i);
      pindex := tree[pindex.value].prev;
      i := i + 1;
    }
  }

  /** The number of entries is logarithmic in the height. */
  lemma {:induction false} LocatorLength(p: seq<BlockId>, v: seq<BlockId>)
    requires IsLocator(p, v) && |v| >= 13
    ensures Pow2(|v| - 12) + 9 < |p|
  {
    assert EntryOk(p, v, |v| - 2);
  }

  // ---------------------------------------------------------------- looking entries up

  /** The receiver's index: its block tree, pnext links and best block. */
  datatype Node = Node(tree: Tree, pnext: map<BlockId, BlockId>, best: BlockId)

  ghost predicate ValidNode(n: Node, genesis: BlockId) {
    WellFormed(n.tree, genesis) && n.best in n.tree && LinksExactly(n.pnext, Path(n.tree, genesis, n.best))
  }

  /** A known block that IsInMainChain. */
  predicate InMainChain(n: Node, x: BlockId) { x in n.tree && (x in n.pnext || x == n.best) }

  lemma {:induction false} InMainChainIs(n: Node, genesis: BlockId, x: BlockId)
    requires ValidNode(n, genesis)
    ensures InMainChain(n, x) <==> x in n.tree && AncestorOrSelf(n.tree, genesis, x, n.best)
  {
    if x in n.tree {
      MainChainTest(n.tree, genesis, n.best, n.pnext, x);
    }
  }

  /** The first entry on the receiver's main chain, or |v|. */
  function FirstMain(n: Node, v: seq<BlockId>): (k: nat)
    ensures k <= |v| && (forall i :: 0 <= i < k ==> !InMainChain(n, v[i])) && (k < |v| ==> InMainChain(n, v[k]))
  {
    if v == [] then 0 else if InMainChain(n, v[0]) then 0 else
      var k := FirstMain(n, v[1..]);
      assert forall i :: 1 <= i < |v| ==> v[i] == v[1..][i - 1];
      k + 1
  }

  lemma {:induction false} FirstMainIs(n: Node, v: seq<BlockId>, k: nat)
    requires k <= |v| && (forall i :: 0 <= i < k ==> !InMainChain(n, v[i])) && (k < |v| ==> InMainChain(n, v[k]))
    ensures FirstMain(n, v) == k
  {
  }

  /** CBlockLocator::GetBlockIndex. */
  method GetBlockIndex(n: Node, genesis: BlockId, v: seq<BlockId>) returns (x: BlockId)
    ensures x == if FirstMain(n, v) < |v| then v[FirstMain(n, v)] else genesis
  {
    for i := 0 to |v|
      invariant forall j :: 0 <= j < i ==> !InMainChain(n, v[j])
    {
      if InMainChain(n, v[i]) {
        FirstMainIs(n, v, i);
        return v[i];
      }
    }
    FirstMainIs(n, v, |v|);
    return genesis;
  }

  /** CBlockLocator::GetDistanceBack. */
  method GetDistanceBack(n: Node, v: seq<BlockId>) returns (nDistance: nat)
    ensures nDistance == Distance(FirstMain(n, v))
  {
    nDistance := 0;
    var nStep := 1;
    for i := 0 to |v|
      invariant nDistance == Distance(i) && nStep == StepAfter(i)
      invariant forall j :: 0 <= j < i ==> !InMainChain(n, v[j])
    {
      if InMainChain(n, v[i]) {
        FirstMainIs(n, v, i);
        return;
      }
      nDistance := nDistance + nStep;
      LongStep(i);
      if nDistance > 10 {
        nStep := nStep * 2;
      }
    }
    FirstMainIs(n, v, |v|);
  }

  lemma {:induction false} LongStep(k: nat)
    ensures Distance(k + 1) > 10 <==> k >= 10
  {
    if k >= 11 {
      DistanceGrows(11, k + 1);
    }
  }

  // ---------------------------------------------------------------- quality

  /** The last d blocks of the sender's chain are off the receiver's main chain, the others on it. */
  ghost predicate ForksBack(n: Node, p: seq<BlockId>, d: nat) {
    d < |p| && forall i :: 0 <= i < |p| ==> (InMainChain(n, p[i]) <==> i < |p| - d)
  }

  /** Every block the receiver knows forks from its main chain some distance back. */
  lemma {:induction false} KnownBlockForks(n: Node, genesis: BlockId, b: BlockId) returns (d: nat)
    requires ValidNode(n, genesis) && b in n.tree
    ensures ForksBack(n, Path(n.tree, genesis, b), d)
    decreases n.tree[b].height
  {
    var p := Path(n.tree, genesis, b);
    InMainChainIs(n, genesis, b);
    if InMainChain(n, b) {
      forall i | 0 <= i < |p| ensures InMainChain(n, p[i]) {
        PathPrefix(n.tree, genesis, b, i);
        AncestorTransitive(n.tree, genesis, p[i], b, n.best);
        InMainChainIs(n, genesis, p[i]);
      }
      return 0;
    }
    InMainChainIs(n, genesis, genesis);
    var q := Path(n.tree, genesis, n.tree[b].prev.value);
    assert p == q + [b];
    d := KnownBlockForks(n, genesis, n.tree[b].prev.value);
    d := d + 1;
    forall i | 0 <= i < |p| ensures InMainChain(n, p[i]) <==> i < |p| - d {
      assert i < |q| ==> p[i] == q[i];
    }
  }

  /** The smallest locator distance that reaches d. */
  ghost function Reaching(d: nat): (k: nat)
    ensures Distance(k) >= d && (forall i :: 0 <= i < k ==> Distance(i) < d)
    ensures d <= 11 ==> Distance(k) == d
    ensures Distance(k) <= 2 * d
  {
    if d <= 11 then d else
      assert Distance(11) < d;
      ReachingFrom(d, 12)
  }

  ghost function ReachingFrom(d: nat, k: nat): (r: nat)
    requires k >= 12 && d > 11 && Distance(k - 1) < d && forall i :: 0 <= i < k ==> Distance(i) < d
    ensures Distance(r) >= d && (forall i :: 0 <= i < r ==> Distance(i) < d) && Distance(r) <= 2 * d
    decreases d - Distance(k - 1)
  {
    var _ := StepAfter(k - 1);
    if Distance(k) >= d then k else ReachingFrom(d, k + 1)
  }

  /** The block found for a locator: on the sender's chain and the receiver's main chain, at the
      fork when that is at most 11 back and at most twice as far back otherwise.  GetDistanceBack
      is the true distance unless only the appended genesis entry matched. */
  lemma {:induction false} LocatorQuality(n: Node, genesis: BlockId, p: seq<BlockId>, v: seq<BlockId>, d: nat)
    requires IsLocator(p, v) && ForksBack(n, p, d)
    ensures var k := FirstMain(n, v);
      && k < |v|
      && var r := if k < |v| - 1 then Distance(k) else |p| - 1;
      && r < |p| && v[k] == p[|p| - 1 - r] && InMainChain(n, v[k])
      && d <= r <= 2 * d && (d <= 11 ==> r == d)
  {
    var k := Reaching(d);
    forall i | 0 <= i < |v| - 1 ensures InMainChain(n, v[i]) <==> Distance(i) >= d {
      assert EntryOk(p, v, i);
    }
    if k < |v| - 1 {
      FirstMainIs(n, v, k);
      assert EntryOk(p, v, k);
    } else {
      DistanceGrows(|v| - 1, k);
      FirstMainIs(n, v, |v| - 1);
    }
  }
}
