/** The block index of main.h: a tree of CBlockIndex records keyed by block hash. */
module BlockTree {
  import opened Basics

  type BlockId = int

  /** The immutable part of a CBlockIndex.  `prev` is pprev (None for genesis). */
  datatype BlockIndex = BlockIndex(
    prev: Option<BlockId>,
    height: nat,
    chainTrust: nat,
    time: nat,
    bits: nat,
    proofOfStake: bool)

  /** mapBlockIndex. */
  type Tree = map<BlockId, BlockIndex>

  /** Exactly one root, parents are present, heights count from the root. */
  ghost predicate WellFormed(t: Tree, genesis: BlockId) {
    && genesis in t
    && t[genesis].prev == None && t[genesis].height == 0
    && forall b {:trigger t[b].prev} :: b in t && b != genesis ==>
         && t[b].prev.Some? && t[b].prev.value in t
         && t[b].height == t[t[b].prev.value].height + 1
  }

  /** The hashes from genesis to `b`, in chain order. */
  ghost function Path(t: Tree, genesis: BlockId, b: BlockId): (p: seq<BlockId>)
    requires WellFormed(t, genesis) && b in t
    ensures |p| == t[b].height + 1 && p[t[b].height] == b && p[0] == genesis
    decreases t[b].height
  {
    if b == genesis then [b] else Path(t, genesis, t[b].prev.value) + [b]
  }

  /** Every block on a path is indexed at the height equal to its position, and its own
      path is the corresponding prefix. */
  lemma {:induction false} PathPrefix(t: Tree, genesis: BlockId, b: BlockId, k: nat)
    requires WellFormed(t, genesis) && b in t && k <= t[b].height
    ensures Path(t, genesis, b)[k] in t
    ensures t[Path(t, genesis, b)[k]].height == k
    ensures Path(t, genesis, Path(t, genesis, b)[k]) == Path(t, genesis, b)[..k + 1]
    decreases t[b].height
  {
    var p := Path(t, genesis, b);
    if k == t[b].height {
      assert p[..k + 1] == p;
    } else {
      var q := Path(t, genesis, t[b].prev.value);
      PathPrefix(t, genesis, t[b].prev.value, k);
      assert p == q + [b];
      assert p[k] == q[k] && p[..k + 1] == q[..k + 1];
    }
  }

  /** The block before position k+1 on a path is the parent of the block there. */
  lemma {:induction false} PathParent(t: Tree, genesis: BlockId, b: BlockId, k: nat)
    requires WellFormed(t, genesis) && b in t && k < t[b].height
    ensures var p := Path(t, genesis, b); p[k + 1] in t && t[p[k + 1]].prev == Some(p[k])
  {
    var p := Path(t, genesis, b);
    PathPrefix(t, genesis, b, k);
    PathPrefix(t, genesis, b, k + 1);
    var c := p[k + 1];
    assert Path(t, genesis, c) == p[..k + 2];
    assert Path(t, genesis, c) == Path(t, genesis, t[c].prev.value) + [c];
    assert p[..k + 2][k] == p[k];
    assert Path(t, genesis, t[c].prev.value)[k] == p[k];
  }

  /** `a` is `b` or one of its ancestors. */
  ghost predicate AncestorOrSelf(t: Tree, genesis: BlockId, a: BlockId, b: BlockId)
    requires WellFormed(t, genesis) && a in t && b in t
  {
    t[a].height <= t[b].height && Path(t, genesis, b)[t[a].height] == a
  }

  lemma {:induction false} AncestorTransitive(t: Tree, genesis: BlockId, a: BlockId, b: BlockId, c: BlockId)
    requires WellFormed(t, genesis) && a in t && b in t && c in t
    requires AncestorOrSelf(t, genesis, a, b) && AncestorOrSelf(t, genesis, b, c)
    ensures AncestorOrSelf(t, genesis, a, c)
  {
    PathPrefix(t, genesis, c, t[b].height);
    assert Path(t, genesis, b)[t[a].height] == Path(t, genesis, c)[t[a].height];
  }

  lemma {:induction false} SelfAncestor(t: Tree, genesis: BlockId, b: BlockId)
    requires WellFormed(t, genesis) && b in t
    ensures AncestorOrSelf(t, genesis, b, b)
  {
  }

  /** The chain through a parent: ancestors of the parent are ancestors of the child. */
  lemma {:induction false} AncestorOfParent(t: Tree, genesis: BlockId, a: BlockId, b: BlockId)
    requires WellFormed(t, genesis) && a in t && b in t && b != genesis
    requires AncestorOrSelf(t, genesis, a, t[b].prev.value)
    ensures AncestorOrSelf(t, genesis, a, b)
  {
  }

  /** Blocks of a path are pairwise distinct: their heights differ. */
  lemma {:induction false} PathDistinct(t: Tree, genesis: BlockId, b: BlockId, i: nat, j: nat)
    requires WellFormed(t, genesis) && b in t && i <= t[b].height && j <= t[b].height
    ensures Path(t, genesis, b)[i] == Path(t, genesis, b)[j] ==> i == j
  {
    PathPrefix(t, genesis, b, i);
    PathPrefix(t, genesis, b, j);
  }

  lemma {:induction false} PathIsDistinct(t: Tree, genesis: BlockId, b: BlockId)
    requires WellFormed(t, genesis) && b in t
    ensures Distinct(Path(t, genesis, b))
  {
    var p := Path(t, genesis, b);
    forall i, j | 0 <= i < j < |p| ensures p[i] != p[j] {
      PathDistinct(t, genesis, b, i, j);
    }
  }

  /** Adding a leaf keeps the tree well formed and every existing path. */
  lemma {:induction false} PathAfterInsert(t: Tree, genesis: BlockId, n: BlockId, x: BlockIndex, b: BlockId)
    requires WellFormed(t, genesis) && n !in t && b in t
    requires x.prev.Some? && x.prev.value in t && x.height == t[x.prev.value].height + 1
    ensures WellFormed(t[n := x], genesis)
    ensures Path(t[n := x], genesis, b) == Path(t, genesis, b)
    decreases t[b].height
  {
    if b != genesis {
      PathAfterInsert(t, genesis, n, x, t[b].prev.value);
    }
  }

  /** Following pprev from position k of a path leads to position k-1. */
  lemma {:induction false} StepBack(tree: Tree, genesis: BlockId, b: BlockId, k: nat)
    requires WellFormed(tree, genesis) && b in tree && k <= tree[b].height
    ensures var p := Path(tree, genesis, b);
      && p[k] in tree && tree[p[k]].height == k
      && (k == 0 ==> tree[p[k]].prev == None)
      && (k > 0 ==> tree[p[k]].prev == Some(p[k - 1]) && p[k - 1] in tree && tree[p[k - 1]].height == k - 1)
  {
    PathPrefix(tree, genesis, b, k);
    if k > 0 {
      PathParent(tree, genesis, b, k - 1);
      PathPrefix(tree, genesis, b, k - 1);
    }
  }

  /** The walk `while (p->nHeight > h) p = p->pprev`, which never runs off the root. */
  method WalkBack(tree: Tree, ghost genesis: BlockId, b: BlockId, h: nat) returns (x: BlockId)
    requires WellFormed(tree, genesis) && b in tree
    ensures x in tree && tree[x].height == Min(h, tree[b].height)
    ensures x == Path(tree, genesis, b)[tree[x].height]
  {
    x := b;
    while tree[x].height > h
      invariant x in tree && Min(h, tree[b].height) <= tree[x].height <= tree[b].height
      invariant x == Path(tree, genesis, b)[tree[x].height]
      decreases tree[x].height
    {
      StepBack(tree, genesis, b, tree[x].height);
      x := tree[x].prev.value;
    }
  }
}
