/** The Merkle tree of a block (main.h). */
module Merkle {
  import opened Basics

  type Hash = int

  /** The double SHA-256 of two concatenated hashes. */
  type PairHash = (Hash, Hash) -> Hash

  function Pair(h: PairHash, a: Hash, b: Hash): Hash { h(a, b) }

  // ---------------------------------------------------------------- the tree as levels

  /** The next level up: pairs are hashed together, an odd last one with itself. */
  function Next(h: PairHash, s: seq<Hash>): (r: seq<Hash>)
    ensures |r| == (|s| + 1) / 2
  {
    if s == [] then [] else if |s| == 1 then [Pair(h, s[0], s[0])] else [Pair(h, s[0], s[1])] + Next(h, s[2..])
  }

  /** The pair at position i of the next level. */
  lemma {:induction false} NextAt(h: PairHash, s: seq<Hash>, i: nat)
    requires i < (|s| + 1) / 2
    ensures 2 * i < |s| && Next(h, s)[i] == Pair(h, s[2 * i], s[Min(2 * i + 1, |s| - 1)])
  {
    if i > 0 {
      NextAt(h, s[2..], i - 1);
    }
  }

  function Root(h: PairHash, s: seq<Hash>): Hash
    decreases |s|
  {
    if s == [] then 0 else if |s| == 1 then s[0] else Root(h, Next(h, s))
  }

  /** All levels, leaves first: what vMerkleTree holds. */
  function Tree(h: PairHash, s: seq<Hash>): seq<Hash>
    decreases |s|
  {
    if |s| <= 1 then s else s + Tree(h, Next(h, s))
  }

  /** The tree starts with the leaves and ends with the root. */
  lemma {:induction false} TreeEnds(h: PairHash, s: seq<Hash>)
    ensures s <= Tree(h, s)
    ensures s != [] ==> Tree(h, s) != [] && Tree(h, s)[|Tree(h, s)| - 1] == Root(h, s)
    decreases |s|
  {
    if |s| > 1 {
      TreeEnds(h, Next(h, s));
    }
  }

  /** In what vMerkleTree will hold, level by level: after `done` comes `level`. */
  ghost predicate AtLevel(h: PairHash, leaves: seq<Hash>, done: seq<Hash>, level: seq<Hash>) {
    Tree(h, leaves) == done + Tree(h, level)
  }

  lemma {:induction false} LevelUp(h: PairHash, leaves: seq<Hash>, done: seq<Hash>, level: seq<Hash>)
    requires AtLevel(h, leaves, done, level) && |level| > 1
    ensures AtLevel(h, leaves, done + level, Next(h, level))
  {
    TreeStep(h, level);
    Associative(done, level, Tree(h, Next(h, level)));
  }

  lemma {:induction false} TreeStep(h: PairHash, s: seq<Hash>)
    requires |s| > 1
    ensures Tree(h, s) == s + Tree(h, Next(h, s))
  {
  }

  lemma {:induction false} Associative(a: seq<Hash>, b: seq<Hash>, c: seq<Hash>)
    ensures a + (b + c) == (a + b) + c
  {
  }

  /** nIndex ^ 1 */
  function Sibling(i: nat): nat { if i % 2 == 0 then i + 1 else i - 1 }

  /** The siblings on the way up from leaf i. */
  function Branch(h: PairHash, s: seq<Hash>, i: nat): seq<Hash>
    decreases |s|
  {
    if |s| <= 1 then [] else [s[Min(Sibling(i), |s| - 1)]] + Branch(h, Next(h, s), i / 2)
  }

  /** Hashing a leaf up along a branch; `& 1` and `>> 1` are remainder and quotient by two, also of
      negative numbers. */
  function Climb(h: PairHash, x: Hash, branch: seq<Hash>, i: int): Hash
    decreases |branch|
  {
    if branch == [] then x
    else Climb(h, if i % 2 == 1 then Pair(h, branch[0], x) else Pair(h, x, branch[0]), branch[1..], i / 2)
  }

  // ---------------------------------------------------------------- the loops

  /** A block's transaction hashes and the memo of its Merkle tree. */
  class BlockTxs {
    const vtx: seq<Hash>
    var vMerkleTree: seq<Hash>

    constructor (txHashes: seq<Hash>)
      ensures vtx == txHashes && vMerkleTree == []
    {
      vtx := txHashes;
      vMerkleTree := [];
    }

    method BuildMerkleTree(h: PairHash) returns (root: Hash)
      modifies this
      ensures vMerkleTree == Tree(h, vtx) && root == Root(h, vtx)
    {
      vMerkleTree := Levels(h, vtx);
      TreeEnds(h, vtx);
      return if vMerkleTree == [] then 0 else vMerkleTree[|vMerkleTree| - 1];
    }

    method GetMerkleBranch(h: PairHash, nIndex: nat) returns (branch: seq<Hash>)
      requires vMerkleTree == [] || vMerkleTree == Tree(h, vtx)
      modifies this
      ensures vMerkleTree == Tree(h, vtx) && branch == Branch(h, vtx, nIndex)
    {
      if vMerkleTree == [] {
        var _ := BuildMerkleTree(h);
      }
      branch := Siblings(h, vtx, vMerkleTree, nIndex);
    }
  }

  /** The loops of BuildMerkleTree. */
  method Levels(h: PairHash, leaves: seq<Hash>) returns (tree: seq<Hash>)
    ensures tree == Tree(h, leaves)
  {
    tree := leaves;
    var j, nSize := 0, |leaves|;
    ghost var done, level := [], leaves;
    while nSize > 1
      invariant tree == done + level && j == |done| && nSize == |level| && AtLevel(h, leaves, done, level)
      decreases nSize
    {
      LevelUp(h, leaves, done, level);
      assert tree[j..] == level;
      tree := AppendLevel(h, tree, j, nSize);
      done, level := done + level, Next(h, level);
      j := j + nSize;
      nSize := (nSize + 1) / 2;
    }
    assert Tree(h, level) == level;
  }

  /** The inner loop: append the level above the last nSize hashes. */
  method AppendLevel(h: PairHash, tree0: seq<Hash>, j: nat, nSize: nat) returns (tree: seq<Hash>)
    requires j + nSize == |tree0|
    ensures tree == tree0 + Next(h, tree0[j..])
  {
    ghost var level := tree0[j..];
    ghost var up := Next(h, level);
    tree := tree0;
    var i := 0;
    while i < nSize
      invariant i % 2 == 0 && 0 <= i <= nSize + 1 && tree == tree0 + up[..(i + 1) / 2]
    {
      var i2 := Min(i + 1, nSize - 1);
      NextAt(h, level, i / 2);
      assert up[..i / 2 + 1] == up[..i / 2] + [Pair(h, tree[j + i], tree[j + i2])];
      tree := tree + [Pair(h, tree[j + i], tree[j + i2])];
      i := i + 2;
    }
    assert up[..|up|] == up;
  }

  /** The loop of GetMerkleBranch. */
  method Siblings(h: PairHash, leaves: seq<Hash>, tree: seq<Hash>, nIndex: nat) returns (branch: seq<Hash>)
    requires tree == Tree(h, leaves)
    ensures branch == Branch(h, leaves, nIndex)
  {
    branch := [];
    var j, n, nSize := 0, nIndex, |leaves|;
    ghost var done, level := [], leaves;
    while nSize > 1
      invariant j == |done| && n >= 0 && nSize == |level| && AtLevel(h, leaves, done, level)
      invariant branch + Branch(h, level, n) == Branch(h, leaves, nIndex)
      decreases nSize
    {
      var i := Min(Sibling(n), nSize - 1);
      TreeEnds(h, level);
      assert tree[j + i] == level[i];
      LevelUp(h, leaves, done, level);
      BranchStep(h, branch, level, n);
      branch := branch + [tree[j + i]];
      n := n / 2;
      done, level := done + level, Next(h, level);
      j := j + nSize;
      nSize := (nSize + 1) / 2;
    }
    assert Branch(h, level, n) == [];
  }

  lemma {:induction false} BranchStep(h: PairHash, branch: seq<Hash>, level: seq<Hash>, n: nat)
    requires |level| > 1
    ensures branch + Branch(h, level, n) == (branch + [level[Min(Sibling(n), |level| - 1)]]) + Branch(h, Next(h, level), n / 2)
  {
  }

  method CheckMerkleBranch(h: PairHash, hash: Hash, branch: seq<Hash>, nIndex: int) returns (r: Hash)
    ensures r == if nIndex == -1 then 0 else Climb(h, hash, branch, nIndex)
  {
    if nIndex == -1 {
      return 0;
    }
    r := hash;
    var n := nIndex;
    for k := 0 to |branch|
      invariant Climb(h, r, branch[k..], n) == Climb(h, hash, branch, nIndex)
    {
      assert branch[k..][0] == branch[k] && branch[k..][1..] == branch[k + 1..];
      r := if n % 2 == 1 then Pair(h, branch[k], r) else Pair(h, r, branch[k]);
      n := n / 2;
    }
  }

  // ---------------------------------------------------------------- branches

  /** The parent of leaf i hashes it with its sibling, in order. */
  lemma {:induction false} Parent(h: PairHash, s: seq<Hash>, i: nat)
    requires i < |s| && |s| > 1
    ensures i / 2 < |Next(h, s)|
    ensures var sib := s[Min(Sibling(i), |s| - 1)];
      Next(h, s)[i / 2] == if i % 2 == 1 then Pair(h, sib, s[i]) else Pair(h, s[i], sib)
  {
    NextAt(h, s, i / 2);
  }

  /** The branch of every leaf leads to the root, whatever the number of leaves. */
  lemma {:induction false} BranchLeadsToRoot(h: PairHash, s: seq<Hash>, i: nat)
    requires i < |s|
    ensures Climb(h, s[i], Branch(h, s, i), i) == Root(h, s)
    decreases |s|
  {
    if |s| > 1 {
      var up := Next(h, s);
      assert Branch(h, s, i)[1..] == Branch(h, up, i / 2);
      Parent(h, s, i);
      BranchLeadsToRoot(h, up, i / 2);
    }
  }

  /** Two different pairs with the same hash. */
  ghost predicate Collision(h: PairHash) {
    exists a, b, c, d :: Pair(h, a, b) == Pair(h, c, d) && (a != c || b != d)
  }

  /** Only the right leaf and the right siblings lead to the root, short of a collision. */
  lemma {:induction false} BranchProvesLeaf(h: PairHash, s: seq<Hash>, i: nat, x: Hash, branch: seq<Hash>)
    requires i < |s| && |branch| == |Branch(h, s, i)| && Climb(h, x, branch, i) == Root(h, s) && !Collision(h)
    ensures x == s[i] && branch == Branch(h, s, i)
    decreases |s|
  {
    if |s| > 1 {
      var up := Next(h, s);
      assert Branch(h, s, i)[1..] == Branch(h, up, i / 2);
      Parent(h, s, i);
      var y := if i % 2 == 1 then Pair(h, branch[0], x) else Pair(h, x, branch[0]);
      BranchProvesLeaf(h, up, i / 2, y, branch[1..]);
      assert branch == [branch[0]] + branch[1..];
    }
  }

  // ---------------------------------------------------------------- from the root down

  /** How many nodes the level k above n leaves has. */
  ghost function Width(n: nat, k: nat): nat {
    if k == 0 then n else (Width(n, k - 1) + 1) / 2
  }

  /** Node i of the level k above the leaves, from the root down: the hash of its left child followed by
      its right child, which is the left one again where there is no other. */
  ghost function NodeAt(h: PairHash, s: seq<Hash>, k: nat, i: nat): Hash {
    if k == 0 then (if i < |s| then s[i] else 0)
    else h(NodeAt(h, s, k - 1, 2 * i), NodeAt(h, s, k - 1, if 2 * i + 1 < Width(|s|, k - 1) then 2 * i + 1 else 2 * i))
  }

  ghost function Depth(n: nat): nat {
    if n <= 1 then 0 else 1 + Depth((n + 1) / 2)
  }

  lemma {:induction false} UpIsNodes(h: PairHash, s: seq<Hash>, k: nat)
    ensures |Up(h, s, k)| == Width(|s|, k)
    ensures forall i :: 0 <= i < |Up(h, s, k)| ==> Up(h, s, k)[i] == NodeAt(h, s, k, i)
  {
    if k > 0 {
      UpIsNodes(h, s, k - 1);
      forall i | 0 <= i < |Up(h, s, k)| ensures Up(h, s, k)[i] == NodeAt(h, s, k, i) {
        NextAt(h, Up(h, s, k - 1), i);
      }
    }
  }

  /** The root is the top node. */
  lemma {:induction false} RootIsTop(h: PairHash, s: seq<Hash>)
    requires s != []
    ensures Root(h, s) == NodeAt(h, s, Depth(|s|), 0)
  {
    UpIsRoot(h, s);
    UpIsNodes(h, s, Depth(|s|));
  }

  // ---------------------------------------------------------------- the root commits to the list

  /** Hashing a level with no repetition gives a level with no repetition. */
  lemma {:induction false} NextDistinct(h: PairHash, s: seq<Hash>)
    requires Distinct(s) && !Collision(h)
    ensures Distinct(Next(h, s))
  {
    var up := Next(h, s);
    forall i, j | 0 <= i < j < |up| ensures up[i] != up[j] {
      NextAt(h, s, i);
      NextAt(h, s, j);
      assert s[2 * i] != s[2 * j];
    }
  }

  /** The pairs hashed at position i are the same. */
  ghost predicate SamePair(a: seq<Hash>, b: seq<Hash>, i: nat) {
    && 2 * i < |a| && 2 * i < |b| && a[2 * i] == b[2 * i]
    && a[Min(2 * i + 1, |a| - 1)] == b[Min(2 * i + 1, |b| - 1)]
  }

  lemma {:induction false} NotOneLonger(a: seq<Hash>, b: seq<Hash>)
    requires Distinct(a) && (|a| + 1) / 2 == (|b| + 1) / 2 && forall i :: 0 <= i < (|a| + 1) / 2 ==> SamePair(a, b, i)
    ensures |a| <= |b|
  {
    if a != [] {
      var last := (|a| + 1) / 2 - 1;
      assert SamePair(a, b, last);
    }
  }

  /** Without repetitions, the level above determines the level below. */
  lemma {:induction false} NextInjective(h: PairHash, a: seq<Hash>, b: seq<Hash>)
    requires Distinct(a) && Distinct(b) && !Collision(h) && Next(h, a) == Next(h, b)
    ensures a == b
  {
    var up := Next(h, a);
    forall i | 0 <= i < |up| ensures SamePair(a, b, i) {
      NextAt(h, a, i);
      NextAt(h, b, i);
    }
    NotOneLonger(a, b);
    forall i | 0 <= i < |up| ensures SamePair(b, a, i) {
      assert SamePair(a, b, i);
    }
    NotOneLonger(b, a);
    forall k | 0 <= k < |a| ensures a[k] == b[k] {
      assert SamePair(a, b, k / 2);
    }
  }

  lemma {:induction false} SameDepthCommits(h: PairHash, a: seq<Hash>, b: seq<Hash>)
    requires a != [] && b != [] && Distinct(a) && Distinct(b) && !Collision(h)
    requires Depth(|a|) == Depth(|b|) && Root(h, a) == Root(h, b)
    ensures a == b
    decreases |a|
  {
    if |a| > 1 {
      assert |b| > 1;
      NextDistinct(h, a);
      NextDistinct(h, b);
      SameDepthCommits(h, Next(h, a), Next(h, b));
      NextInjective(h, a, b);
    }
  }

  ghost predicate IsPairHash(h: PairHash, x: Hash) {
    exists a, b :: x == Pair(h, a, b)
  }

  /** The level k above s. */
  ghost function Up(h: PairHash, s: seq<Hash>, k: nat): seq<Hash> {
    if k == 0 then s else Next(h, Up(h, s, k - 1))
  }

  lemma {:induction false} UpFromNext(h: PairHash, s: seq<Hash>, k: nat)
    ensures Up(h, Next(h, s), k) == Up(h, s, k + 1)
  {
    if k > 0 {
      UpFromNext(h, s, k - 1);
    }
  }

  lemma {:induction false} UpIsRoot(h: PairHash, s: seq<Hash>)
    requires s != []
    ensures Up(h, s, Depth(|s|)) == [Root(h, s)]
    decreases |s|
  {
    if |s| > 1 {
      UpIsRoot(h, Next(h, s));
      UpFromNext(h, s, Depth(|s|) - 1);
    }
  }

  lemma {:induction false} UpNonEmpty(h: PairHash, s: seq<Hash>, k: nat)
    requires s != []
    ensures Up(h, s, k) != [] && (k > 0 ==> IsPairHash(h, Up(h, s, k)[0]))
  {
    if k > 0 {
      UpNonEmpty(h, s, k - 1);
      NextAt(h, Up(h, s, k - 1), 0);
    }
  }

  /** A shallower tree with the same root has, as its first leaf, a hash from inside the deeper. */
  lemma {:induction false} ShallowLeafIsHash(h: PairHash, a: seq<Hash>, b: seq<Hash>, k: nat)
    requires a != [] && b != [] && !Collision(h) && Up(h, b, k + Depth(|a|)) == [Root(h, a)]
    ensures Up(h, b, k) != [] && a[0] == Up(h, b, k)[0]
    decreases |a|
  {
    UpNonEmpty(h, b, k);
    if |a| > 1 {
      ShallowLeafIsHash(h, Next(h, a), b, k + 1);
      NextAt(h, a, 0);
      NextAt(h, Up(h, b, k), 0);
    }
  }

  /** With transaction ids that are not hashes of pairs, lists with equal roots have equal depth. */
  lemma {:induction false} RootFixesDepth(h: PairHash, a: seq<Hash>, b: seq<Hash>)
    requires a != [] && b != [] && !Collision(h) && Root(h, a) == Root(h, b) && !IsPairHash(h, a[0])
    ensures Depth(|a|) >= Depth(|b|)
  {
    if Depth(|a|) < Depth(|b|) {
      var k := Depth(|b|) - Depth(|a|);
      UpIsRoot(h, b);
      ShallowLeafIsHash(h, a, b, k);
      UpNonEmpty(h, b, k);
    }
  }

  /** Two lists without repeated transaction ids, as CheckBlock demands, and with the same root are
      the same list, unless the hash has a collision or an id is the hash of a pair. */
  lemma {:induction false} RootCommits(h: PairHash, a: seq<Hash>, b: seq<Hash>)
    requires a != [] && b != [] && Distinct(a) && Distinct(b) && Root(h, a) == Root(h, b)
    ensures a == b || Collision(h) || IsPairHash(h, a[0]) || IsPairHash(h, b[0])
  {
    if !Collision(h) && !IsPairHash(h, a[0]) && !IsPairHash(h, b[0]) {
      RootFixesDepth(h, a, b);
      RootFixesDepth(h, b, a);
      SameDepthCommits(h, a, b);
    }
  }

  /** Why CheckBlock needs the test for repeated ids: repeating the last of an odd number of
      transactions does not change the root. */
  lemma {:induction false} RepeatedLastSameRoot(h: PairHash, s: seq<Hash>)
    requires |s| % 2 == 1 && |s| > 1
    ensures Root(h, s + [s[|s| - 1]]) == Root(h, s)
  {
    NextRepeated(h, s);
    RootStep(h, s);
    RootStep(h, s + [s[|s| - 1]]);
  }

  lemma {:induction false} RootStep(h: PairHash, s: seq<Hash>)
    requires |s| > 1
    ensures Root(h, s) == Root(h, Next(h, s))
  {
  }

  lemma {:induction false} NextRepeated(h: PairHash, s: seq<Hash>)
    requires |s| % 2 == 1
    ensures Next(h, s + [s[|s| - 1]]) == Next(h, s)
  {
    var t := s + [s[|s| - 1]];
    if |s| == 1 {
      assert t[2..] == [];
    } else {
      NextRepeated(h, s[2..]);
      assert t[2..] == s[2..] + [s[2..][|s| - 3]];
    }
  }
}
