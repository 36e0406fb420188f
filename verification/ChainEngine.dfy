/** Best-chain maintenance of main.cpp: Reorganize, SetBestChainInner, SetBestChain,
    AddToBlockIndex and FindBlockByHeight over the block tree and the transaction index. */
module ChainEngine {
  import opened Basics
  import opened BlockTree
  import opened Transactions
  import opened Ledger
  import opened LedgerUndo
  import opened LedgerReplay
  import opened LedgerMoney
  import opened ConnectLoops
  import opened BranchRollback
  import opened BestChain

  // ---------------------------------------------------------------- what the state must be

  ghost predicate Linked(pnext: map<BlockId, BlockId>, path: seq<BlockId>, i: nat)
    requires i + 1 < |path|
  {
    path[i] in pnext && pnext[path[i]] == path[i + 1]
  }

  /** `x` is a block of the path before its last. */
  ghost predicate Inner(path: seq<BlockId>, x: BlockId) {
    exists i :: 0 <= i < |path| - 1 && path[i] == x
  }

  /** pnext links exactly the blocks of the path, in order. */
  ghost predicate LinksExactly(pnext: map<BlockId, BlockId>, path: seq<BlockId>) {
    && (forall i :: 0 <= i < |path| - 1 ==> Linked(pnext, path, i))
    && (forall x :: x in pnext ==> Inner(path, x))
  }

  ghost predicate SupplyAt(env: Env, path: seq<BlockId>, supply: int)
    requires path != []
  {
    Replay(env, path).Some? && supply == Supply(env, Replay(env, path).value)
  }

  /** The last block's nMoneySupply is the value of all unspent outputs of its chain. */
  ghost predicate LastSupplyOk(env: Env, path: seq<BlockId>, supply: map<BlockId, int>)
    requires path != []
  {
    path[|path| - 1] in supply && SupplyAt(env, path, supply[path[|path| - 1]])
  }

  /** ... and so for every block of the path. */
  ghost predicate SuppliesOk(env: Env, path: seq<BlockId>, supply: map<BlockId, int>)
    decreases |path|
  {
    path == [] || (SuppliesOk(env, path[..|path| - 1], supply) && LastSupplyOk(env, path, supply))
  }

  /** What follows the best chain: the committed "tx" table, and pnext and nMoneySupply of the
      block index records. */
  datatype ChainData = ChainData(txdb: Index, pnext: map<BlockId, BlockId>, supply: map<BlockId, int>)

  /** Index, links and supplies are those of the chain `path`. */
  ghost predicate ChainAt(env: Env, path: seq<BlockId>, c: ChainData)
    requires path != []
  {
    Tracks(env, path, c.txdb) && LinksExactly(c.pnext, path) && SuppliesOk(env, path, c.supply)
  }

  /** The state is that of the chain ending in `tip`. */
  ghost predicate SyncedAt(env: Env, tree: Tree, genesis: BlockId, tip: BlockId, c: ChainData) {
    && WellFormed(tree, genesis) && tip in tree && c.supply.Keys == tree.Keys
    && ChainAt(env, Path(tree, genesis, tip), c)
  }

  /** Connecting the last block of `path` to a live index extends supplies and replay together. */
  lemma {:induction false} ConnectExtends(env: Env, path: seq<BlockId>, live: Index, before: int)
    requires |path| >= 2 && Tracks(env, path[..|path| - 1], live)
    requires SupplyAt(env, path[..|path| - 1], before) && ConnectBlock(env, path, live).Some?
    ensures var r := ConnectBlock(env, path, live).value;
      Tracks(env, path, r.view) && SupplyAt(env, path, before + r.valueOut - r.valueIn)
  {
    var full := Replay(env, path[..|path| - 1]).value;
    ConnectTracks(env, path, live);
    ConnectBlockBelow(env, path, live, full);
    ReplayStep(env, path);
    SupplyAfterBlock(env, path, full);
  }

  // ---------------------------------------------------------------- paths and forks

  /** Beyond the fork the branches share no block at all. */
  lemma {:induction false} BranchesDisjoint(t: Tree, genesis: BlockId, a: BlockId, b: BlockId, f: nat, i: nat, j: nat)
    requires WellFormed(t, genesis) && a in t && b in t
    requires ForkAt(Path(t, genesis, a), Path(t, genesis, b), f)
    requires i <= t[a].height && f < j <= t[b].height
    ensures Path(t, genesis, a)[i] != Path(t, genesis, b)[j]
  {
    PathPrefix(t, genesis, a, i);
    PathPrefix(t, genesis, b, j);
  }

  /** Every height at which the two paths agree is at most `h`. */
  ghost predicate AgreeUpTo(p: seq<BlockId>, q: seq<BlockId>, h: nat) {
    forall i :: 0 <= i < |p| && i < |q| && p[i] == q[i] ==> i <= h
  }

  /** Different blocks of one height lie above the fork. */
  lemma {:induction false} ForkIsBelow(tree: Tree, genesis: BlockId, a: BlockId, b: BlockId, x: BlockId, y: BlockId)
    requires WellFormed(tree, genesis) && a in tree && b in tree && x in tree && y in tree
    requires AncestorOrSelf(tree, genesis, x, a) && AncestorOrSelf(tree, genesis, y, b)
    requires AgreeUpTo(Path(tree, genesis, a), Path(tree, genesis, b), tree[x].height)
    requires x != y && tree[y].height <= tree[x].height
    requires tree[y].height < tree[x].height ==> AgreeUpTo(Path(tree, genesis, a), Path(tree, genesis, b), tree[y].height)
    ensures x != genesis && tree[x].prev.Some? && tree[x].prev.value in tree
    ensures AgreeUpTo(Path(tree, genesis, a), Path(tree, genesis, b), tree[tree[x].prev.value].height)
    ensures AncestorOrSelf(tree, genesis, tree[x].prev.value, a) && tree[tree[x].prev.value].height < tree[x].height
  {
    StepBack(tree, genesis, a, tree[x].height);
  }

  lemma {:induction false} MeetAtFork(tree: Tree, genesis: BlockId, a: BlockId, b: BlockId, x: BlockId)
    requires WellFormed(tree, genesis) && a in tree && b in tree && x in tree
    requires AncestorOrSelf(tree, genesis, x, a) && AncestorOrSelf(tree, genesis, x, b)
    requires AgreeUpTo(Path(tree, genesis, a), Path(tree, genesis, b), tree[x].height)
    ensures ForkAt(Path(tree, genesis, a), Path(tree, genesis, b), tree[x].height)
  {
    PathPrefix(tree, genesis, a, tree[x].height);
    PathPrefix(tree, genesis, b, tree[x].height);
  }

  /** The loop of Reorganize that finds the fork.  The error branches for a null pprev are
      never taken: both walks meet at genesis at the latest. */
  method FindFork(tree: Tree, ghost genesis: BlockId, a: BlockId, b: BlockId) returns (fork: BlockId)
    requires WellFormed(tree, genesis) && a in tree && b in tree
    ensures fork in tree && ForkAt(Path(tree, genesis, a), Path(tree, genesis, b), tree[fork].height)
    ensures AncestorOrSelf(tree, genesis, fork, a) && AncestorOrSelf(tree, genesis, fork, b)
  {
    ghost var p, q := Path(tree, genesis, a), Path(tree, genesis, b);
    fork := a;
    var longer := b;
    while fork != longer
      invariant fork in tree && AncestorOrSelf(tree, genesis, fork, a)
      invariant longer in tree && AncestorOrSelf(tree, genesis, longer, b)
      invariant AgreeUpTo(p, q, tree[fork].height) && AgreeUpTo(p, q, tree[longer].height)
      decreases tree[fork].height + tree[longer].height
    {
      ghost var from := longer;
      longer := WalkBack(tree, genesis, longer, tree[fork].height);
      PathPrefix(tree, genesis, b, tree[from].height);
      if fork == longer {
        break;
      }
      ForkIsBelow(tree, genesis, a, b, fork, longer);
      fork := tree[fork].prev.value;
    }
    MeetAtFork(tree, genesis, a, b, fork);
  }

  // ---------------------------------------------------------------- the node's chain state

  ghost predicate SameAt(p: seq<BlockId>, before: map<BlockId, int>, after: map<BlockId, int>, i: nat)
    requires i < |p|
  {
    p[i] in before ==> p[i] in after && after[p[i]] == before[p[i]]
  }

  /** The two records agree on the blocks of `p`. */
  ghost predicate SameOn(p: seq<BlockId>, before: map<BlockId, int>, after: map<BlockId, int>) {
    forall i :: 0 <= i < |p| ==> SameAt(p, before, after, i)
  }

  lemma {:induction false} SameOnStep(p: seq<BlockId>, before: map<BlockId, int>, after: map<BlockId, int>, b: BlockId, x: int)
    requires SameOn(p, before, after) && forall i :: 0 <= i < |p| ==> p[i] != b
    ensures SameOn(p, before, after[b := x])
  {
    var changed := after[b := x];
    forall i | 0 <= i < |p| ensures SameAt(p, before, changed, i) {
      assert SameAt(p, before, after, i);
    }
  }

  /** The path's supplies depend only on the records of its own blocks. */
  lemma {:induction false} SuppliesSame(env: Env, path: seq<BlockId>, before: map<BlockId, int>, after: map<BlockId, int>)
    requires SuppliesOk(env, path, before) && SameOn(path, before, after)
    ensures SuppliesOk(env, path, after)
    decreases |path|
  {
    if path != [] {
      var k := |path| - 1;
      forall i | 0 <= i < k ensures SameAt(path[..k], before, after, i) {
        assert SameAt(path, before, after, i);
      }
      SuppliesSame(env, path[..k], before, after);
      assert SameAt(path, before, after, k);
    }
  }

  lemma {:induction false} SuppliesExtend(env: Env, path: seq<BlockId>, supply: map<BlockId, int>, x: int)
    requires |path| >= 2 && SuppliesOk(env, path[..|path| - 1], supply)
    requires Distinct(path) && SupplyAt(env, path, x)
    ensures SuppliesOk(env, path, supply[path[|path| - 1] := x])
  {
    var k := |path| - 1;
    var s := supply[path[k] := x];
    forall i | 0 <= i < k ensures SameAt(path[..k], supply, s, i) { }
    SuppliesSame(env, path[..k], supply, s);
  }

  lemma {:induction false} SuppliesPrefix(env: Env, path: seq<BlockId>, supply: map<BlockId, int>, k: nat)
    requires k <= |path| && SuppliesOk(env, path, supply)
    ensures SuppliesOk(env, path[..k], supply)
    decreases |path|
  {
    if k == |path| {
      assert path[..k] == path;
    } else {
      SuppliesPrefix(env, path[..|path| - 1], supply, k);
      assert path[..|path| - 1][..k] == path[..k];
    }
  }

  /** The blocks between `fork` (exclusive) and `tip` (inclusive), in chain order: vConnect, and
      vDisconnect read backwards. */
  method Branch(tree: Tree, ghost genesis: BlockId, fork: BlockId, tip: BlockId) returns (blocks: seq<BlockId>)
    requires WellFormed(tree, genesis) && fork in tree && tip in tree && AncestorOrSelf(tree, genesis, fork, tip)
    ensures blocks == Path(tree, genesis, tip)[tree[fork].height + 1..]
  {
    ghost var p := Path(tree, genesis, tip);
    blocks := [];
    var x := tip;
    while x != fork
      invariant x in tree && AncestorOrSelf(tree, genesis, x, tip) && tree[x].height >= tree[fork].height
      invariant blocks == p[tree[x].height + 1..]
      decreases tree[x].height
    {
      StepBack(tree, genesis, tip, tree[x].height);
      assert p[tree[x].height..] == [p[tree[x].height]] + p[tree[x].height + 1..];
      blocks := [x] + blocks;
      x := tree[x].prev.value;
    }
  }

  /** Reorganize's loop over vDisconnect. */
  method DisconnectBranch(env: Env, ghost p: seq<BlockId>, blocks: seq<BlockId>, ghost k: nat, db: Index)
    returns (r: Option<Index>)
    requires 1 <= k <= |p| && blocks == p[k..]
    ensures r == Rollback(env, p, k, db)
  {
    var w := db;
    var i := |blocks|;
    assert p[..|p|] == p;
    while i > 0
      invariant 0 <= i <= |blocks|
      invariant Rollback(env, p[..k + i], k, w) == Rollback(env, p, k, db)
    {
      i := i - 1;
      assert p[..k + i + 1][..k + i] == p[..k + i] && blocks[i] == p[k + i];
      var step := DisconnectBlockTxs(env, blocks[i], w);
      if step.None? {
        return None;
      }
      w := step.value;
    }
    return Some(w);
  }

  lemma {:induction false} UnlinkLast(pnext: map<BlockId, BlockId>, path: seq<BlockId>)
    requires |path| >= 2 && Distinct(path) && LinksExactly(pnext, path)
    ensures LinksExactly(pnext - {path[|path| - 2]}, path[..|path| - 1])
  {
    var k := |path| - 1;
    var q, r := path[..k], pnext - {path[k - 1]};
    forall i | 0 <= i < |q| - 1 ensures Linked(r, q, i) {
      assert Linked(pnext, path, i);
    }
    forall x | x in r ensures Inner(q, x) {
      assert Inner(path, x);
      var i :| 0 <= i < |path| - 1 && path[i] == x;
      assert q[i] == x;
    }
  }

  lemma {:induction false} LinkNext(pnext: map<BlockId, BlockId>, path: seq<BlockId>)
    requires |path| >= 2 && Distinct(path) && LinksExactly(pnext, path[..|path| - 1])
    ensures LinksExactly(pnext[path[|path| - 2] := path[|path| - 1]], path)
  {
    var k := |path| - 1;
    var q, r := path[..k], pnext[path[k - 1] := path[k]];
    forall i | 0 <= i < |path| - 1 ensures Linked(r, path, i) {
      if i < k - 1 {
        assert Linked(pnext, q, i);
      }
    }
    forall x | x in r ensures Inner(path, x) {
      if x != path[k - 1] {
        assert Inner(q, x);
        var i :| 0 <= i < |q| - 1 && q[i] == x;
        assert path[i] == x;
      }
    }
  }

  /** Reorganize's loop that clears the links of the disconnected branch, `p` from length `k` on. */
  method Unlink(tree: Tree, ghost genesis: BlockId, ghost tip: BlockId, blocks: seq<BlockId>, ghost k: nat,
                pnext: map<BlockId, BlockId>) returns (r: map<BlockId, BlockId>)
    requires WellFormed(tree, genesis) && tip in tree && 1 <= k <= tree[tip].height + 1
    requires blocks == Path(tree, genesis, tip)[k..] && LinksExactly(pnext, Path(tree, genesis, tip))
    ensures LinksExactly(r, Path(tree, genesis, tip)[..k])
  {
    ghost var p := Path(tree, genesis, tip);
    PathIsDistinct(tree, genesis, tip);
    r := pnext;
    var i := |blocks|;
    assert p[..|p|] == p;
    while i > 0
      invariant 0 <= i <= |blocks| && LinksExactly(r, p[..k + i])
    {
      i := i - 1;
      StepBack(tree, genesis, tip, k + i);
      assert blocks[i] == p[k + i];
      UnlinkLast(r, p[..k + i + 1]);
      assert p[..k + i + 1][..k + i] == p[..k + i];
      r := r - {tree[blocks[i]].prev.value};
    }
  }

  /** Reorganize's loop that links the connected branch. */
  method Link(tree: Tree, ghost genesis: BlockId, ghost tip: BlockId, blocks: seq<BlockId>, ghost k: nat,
              pnext: map<BlockId, BlockId>) returns (r: map<BlockId, BlockId>)
    requires WellFormed(tree, genesis) && tip in tree && 1 <= k <= tree[tip].height + 1
    requires blocks == Path(tree, genesis, tip)[k..] && LinksExactly(pnext, Path(tree, genesis, tip)[..k])
    ensures LinksExactly(r, Path(tree, genesis, tip))
  {
    ghost var q := Path(tree, genesis, tip);
    PathIsDistinct(tree, genesis, tip);
    r := pnext;
    for i := 0 to |blocks|
      invariant LinksExactly(r, q[..k + i])
    {
      StepBack(tree, genesis, tip, k + i);
      assert blocks[i] == q[k + i];
      assert q[..k + i + 1][..k + i] == q[..k + i];
      LinkNext(r, q[..k + i + 1]);
      r := r[tree[blocks[i]].prev.value := blocks[i]];
    }
    assert q[..|q|] == q;
  }

  /** Connecting in order from an index in step: index and supplies after the first `n` blocks. */
  ghost predicate InStepAt(env: Env, q: seq<BlockId>, n: nat, db: Index, supply: map<BlockId, int>)
    requires 1 <= n <= |q|
  {
    Tracks(env, q[..n], db) && SuppliesOk(env, q[..n], supply)
  }

  /** ConnectBlock of the block at position `n` of `target`'s path, on an index in step with the
      blocks before it: the new index and the block's nMoneySupply. */
  method ConnectNext(env: Env, tree: Tree, ghost genesis: BlockId, ghost target: BlockId, ghost n: nat, b: BlockId,
                     db: Index, supply: map<BlockId, int>, ghost k: nat, ghost start: Index)
    returns (r: Option<Index>, money: int)
    requires WellFormed(tree, genesis) && target in tree && supply.Keys == tree.Keys
    requires 1 <= n <= tree[target].height && b == Path(tree, genesis, target)[n]
    requires InStepAt(env, Path(tree, genesis, target), n, db, supply)
    requires 1 <= k <= n && ConnectAll(env, Path(tree, genesis, target)[..n], k, start) == Some(db)
    ensures b in tree
    ensures r == ConnectAll(env, Path(tree, genesis, target)[..n + 1], k, start)
    ensures r.Some? ==> InStepAt(env, Path(tree, genesis, target), n + 1, r.value, supply[b := money])
  {
    PlaceOnPath(tree, genesis, target, n);
    ghost var q := Path(tree, genesis, b);
    assert q[..|q| - 1] == Path(tree, genesis, target)[..n] && q[|q| - 2] == Path(tree, genesis, target)[n - 1];
    ConnectAllStep(env, q, k, start);
    var acc := ConnectBlockTxs(env, tree, genesis, b, db);
    if acc.None? {
      return None, 0;
    }
    ConnectsInStep(env, q, db, supply, acc.value);
    money := supply[tree[b].prev.value] + acc.value.valueOut - acc.value.valueIn;
    StaysInStep(env, Path(tree, genesis, target), n, supply, acc.value.view, money);
    return Some(acc.value.view), money;
  }

  lemma {:induction false} PlaceOnPath(tree: Tree, genesis: BlockId, target: BlockId, n: nat)
    requires WellFormed(tree, genesis) && target in tree && 1 <= n <= tree[target].height
    ensures var q := Path(tree, genesis, target);
      && q[n] in tree && q[n] != genesis && Path(tree, genesis, q[n]) == q[..n + 1] && Distinct(q[..n + 1])
      && q[n - 1] in tree && tree[q[n]].prev == Some(q[n - 1])
  {
    PathPrefix(tree, genesis, target, n);
    StepBack(tree, genesis, target, n);
    PathIsDistinct(tree, genesis, Path(tree, genesis, target)[n]);
  }

  lemma {:induction false} ConnectsInStep(env: Env, q: seq<BlockId>, db: Index, supply: map<BlockId, int>, acc: Acc)
    requires |q| >= 2 && Tracks(env, q[..|q| - 1], db) && SuppliesOk(env, q[..|q| - 1], supply) && q[|q| - 2] in supply
    requires ConnectBlock(env, q, db) == Some(acc)
    ensures Tracks(env, q, acc.view) && SupplyAt(env, q, supply[q[|q| - 2]] + acc.valueOut - acc.valueIn)
  {
    SupplyBefore(env, q, supply);
    ConnectExtends(env, q, db, supply[q[|q| - 2]]);
  }

  lemma {:induction false} StaysInStep(env: Env, p: seq<BlockId>, n: nat, supply: map<BlockId, int>, view: Index, money: int)
    requires 1 <= n < |p| && Distinct(p[..n + 1]) && SuppliesOk(env, p[..n], supply)
    requires Tracks(env, p[..n + 1], view) && SupplyAt(env, p[..n + 1], money)
    ensures InStepAt(env, p, n + 1, view, supply[p[n] := money])
  {
    var q := p[..n + 1];
    assert q[..|q| - 1] == p[..n] && q[|q| - 1] == p[n];
    SuppliesExtend(env, q, supply, money);
  }

  lemma {:induction false} SupplyBefore(env: Env, q: seq<BlockId>, supply: map<BlockId, int>)
    requires |q| >= 2 && q[|q| - 2] in supply && SuppliesOk(env, q[..|q| - 1], supply)
    ensures SupplyAt(env, q[..|q| - 1], supply[q[|q| - 2]])
  {
    var t := q[..|q| - 1];
    assert t[|t| - 1] == q[|q| - 2];
    assert LastSupplyOk(env, t, supply);
  }

  /** Reorganize's loop over vConnect, the blocks of `target`'s path from length `k` on. */
  method ConnectBranch(env: Env, tree: Tree, ghost genesis: BlockId, blocks: seq<BlockId>, ghost target: BlockId,
                       ghost k: nat, db: Index, supply: map<BlockId, int>, ghost keep: seq<BlockId>)
    returns (r: Option<Index>, supply': map<BlockId, int>)
    requires WellFormed(tree, genesis) && target in tree && supply.Keys == tree.Keys
    requires forall i, j :: 0 <= i < |keep| && 0 <= j < |blocks| ==> keep[i] != blocks[j]
    requires 1 <= k <= tree[target].height + 1 && blocks == Path(tree, genesis, target)[k..]
    requires InStepAt(env, Path(tree, genesis, target), k, db, supply)
    ensures supply'.Keys == tree.Keys && SameOn(keep, supply, supply')
    ensures r == ConnectAll(env, Path(tree, genesis, target), k, db)
    ensures r.Some? ==> InStepAt(env, Path(tree, genesis, target), tree[target].height + 1, r.value, supply')
  {
    ghost var q := Path(tree, genesis, target);
    var w := db;
    supply' := supply;
    for i := 0 to |blocks|
      invariant supply'.Keys == tree.Keys && SameOn(keep, supply, supply')
      invariant InStepAt(env, q, k + i, w, supply') && ConnectAll(env, q[..k + i], k, db) == Some(w)
    {
      assert blocks[i] == q[k + i];
      var step, money := ConnectNext(env, tree, genesis, target, k + i, blocks[i], w, supply', k, db);
      if step.None? {
        FailsBeyond(env, q, k, k + i, db);
        return None, supply';
      }
      SameOnStep(keep, supply, supply', blocks[i], money);
      w, supply' := step.value, supply'[blocks[i] := money];
    }
    assert q[..|q|] == q;
    return Some(w), supply';
  }

  /** No block of the old chain is among those connected. */
  lemma {:induction false} OffBranch(t: Tree, genesis: BlockId, a: BlockId, b: BlockId, f: nat)
    requires WellFormed(t, genesis) && a in t && b in t && ForkAt(Path(t, genesis, a), Path(t, genesis, b), f)
    ensures var p, q := Path(t, genesis, a), Path(t, genesis, b)[f + 1..];
      forall i, j :: 0 <= i < |p| && 0 <= j < |q| ==> p[i] != q[j]
  {
    var p, q := Path(t, genesis, a), Path(t, genesis, b)[f + 1..];
    forall i, j | 0 <= i < |p| && 0 <= j < |q| ensures p[i] != q[j] {
      BranchesDisjoint(t, genesis, a, b, f, i, f + 1 + j);
    }
  }

  /** The fork and the two lists of Reorganize. */
  method PlanReorganize(tree: Tree, ghost genesis: BlockId, best: BlockId, target: BlockId)
    returns (fork: BlockId, vDisconnect: seq<BlockId>, vConnect: seq<BlockId>)
    requires WellFormed(tree, genesis) && best in tree && target in tree
    ensures fork in tree
    ensures ForkAt(Path(tree, genesis, best), Path(tree, genesis, target), tree[fork].height)
    ensures vDisconnect == Path(tree, genesis, best)[tree[fork].height + 1..]
    ensures vConnect == Path(tree, genesis, target)[tree[fork].height + 1..]
  {
    fork := FindFork(tree, genesis, best, target);
    vDisconnect := Branch(tree, genesis, fork, best);
    vConnect := Branch(tree, genesis, fork, target);
  }

  /** The in-memory part of Reorganize: clear the links of one branch, set those of the other. */
  method Relink(tree: Tree, ghost genesis: BlockId, ghost best: BlockId, ghost target: BlockId, ghost f: nat,
                vDisconnect: seq<BlockId>, vConnect: seq<BlockId>, pnext: map<BlockId, BlockId>)
    returns (r: map<BlockId, BlockId>)
    requires WellFormed(tree, genesis) && best in tree && target in tree
    requires ForkAt(Path(tree, genesis, best), Path(tree, genesis, target), f)
    requires vDisconnect == Path(tree, genesis, best)[f + 1..] && vConnect == Path(tree, genesis, target)[f + 1..]
    requires LinksExactly(pnext, Path(tree, genesis, best))
    ensures LinksExactly(r, Path(tree, genesis, target))
  {
    var cleared := Unlink(tree, genesis, best, vDisconnect, f + 1, pnext);
    r := Link(tree, genesis, target, vConnect, f + 1, cleared);
  }

  /** The database part of Reorganize: disconnect one branch, connect the other. */
  method SwitchBranch(env: Env, tree: Tree, ghost genesis: BlockId, ghost best: BlockId, ghost target: BlockId,
                      ghost f: nat, vDisconnect: seq<BlockId>, vConnect: seq<BlockId>, db: Index, supply: map<BlockId, int>)
    returns (r: Option<Index>, supply': map<BlockId, int>)
    requires WellFormed(tree, genesis) && best in tree && target in tree && supply.Keys == tree.Keys
    requires ForkAt(Path(tree, genesis, best), Path(tree, genesis, target), f)
    requires vDisconnect == Path(tree, genesis, best)[f + 1..] && vConnect == Path(tree, genesis, target)[f + 1..]
    requires Tracks(env, Path(tree, genesis, best), db) && SuppliesOk(env, Path(tree, genesis, best), supply)
    ensures supply'.Keys == tree.Keys
    ensures r == Switched(env, Path(tree, genesis, best), Path(tree, genesis, target), db)
    ensures r.Some? ==>
      Tracks(env, Path(tree, genesis, target), r.value) && SuppliesOk(env, Path(tree, genesis, target), supply')
    ensures r.None? ==> SuppliesOk(env, Path(tree, genesis, best), supply')
  {
    ghost var p, q := Path(tree, genesis, best), Path(tree, genesis, target);
    ForkIsCommon(p, q, f);
    var rolled := DisconnectBranch(env, p, vDisconnect, f + 1, db);
    if rolled.None? {
      return None, supply;
    }
    RollbackTracks(env, p, f + 1, db);
    SuppliesPrefix(env, p, supply, f + 1);
    PrefixAll(q);
    OffBranch(tree, genesis, best, target, f);
    r, supply' := ConnectBranch(env, tree, genesis, vConnect, target, f + 1, rolled.value, supply, p);
    SuppliesSame(env, p, supply, supply');
  }

  /** Reorganize onto the branch that ends in `target`.  The changed index is the content of the
      open database transaction: it replaces the committed one only when everything connected,
      and only then do the in-memory links change. */
  method Reorganize(env: Env, tree: Tree, ghost genesis: BlockId, best: BlockId, target: BlockId, c: ChainData)
    returns (ok: bool, c': ChainData)
    requires SyncedAt(env, tree, genesis, best, c) && target in tree
    ensures ok ==> SyncedAt(env, tree, genesis, target, c')
    ensures !ok ==> SyncedAt(env, tree, genesis, best, c') && c'.txdb == c.txdb && c'.pnext == c.pnext
    ensures Switched(env, Path(tree, genesis, best), Path(tree, genesis, target), c.txdb) == if ok then Some(c'.txdb) else None
  {
    var fork, vDisconnect, vConnect := PlanReorganize(tree, genesis, best, target);
    ghost var f := tree[fork].height;
    var batch, supply := SwitchBranch(env, tree, genesis, best, target, f, vDisconnect, vConnect, c.txdb, c.supply);
    if batch.None? {
      return false, c.(supply := supply);
    }
    var links := Relink(tree, genesis, best, target, f, vDisconnect, vConnect, c.pnext);
    return true, ChainData(batch.value, links, supply);
  }

  /** SetBestChainInner: attach a block to the chain the state is synced at. */
  method SetBestChainInner(env: Env, tree: Tree, ghost genesis: BlockId, b: BlockId, c: ChainData, ghost k: nat, ghost start: Index)
    returns (ok: bool, c': ChainData)
    requires WellFormed(tree, genesis) && b in tree && b != genesis
    requires SyncedAt(env, tree, genesis, tree[b].prev.value, c)
    requires 1 <= k <= tree[b].height && ConnectAll(env, Path(tree, genesis, tree[b].prev.value), k, start) == Some(c.txdb)
    ensures ok ==> SyncedAt(env, tree, genesis, b, c')
    ensures ConnectAll(env, Path(tree, genesis, b), k, start) == if ok then Some(c'.txdb) else None
    ensures !ok ==> c' == c
  {
    ghost var q, n := Path(tree, genesis, b), tree[b].height;
    assert q[..n] == Path(tree, genesis, tree[b].prev.value) && q[..n + 1] == q;
    PathIsDistinct(tree, genesis, b);
    var r, money := ConnectNext(env, tree, genesis, b, n, b, c.txdb, c.supply, k, start);
    if r.None? {
      return false, c;
    }
    LinkNext(c.pnext, q);
    return true, ChainData(r.value, c.pnext[tree[b].prev.value := b], c.supply[b := money]);
  }

  /** SetBestChain's loop over the postponed blocks, those of `b`'s path after `x`.  It stops at
      the first block that does not connect; `tip` is the last one that did. */
  method ConnectPostponed(env: Env, tree: Tree, ghost genesis: BlockId, ghost b: BlockId, x: BlockId,
                          postponed: seq<BlockId>, c: ChainData) returns (tip: BlockId, c': ChainData)
    requires SyncedAt(env, tree, genesis, x, c) && b in tree && AncestorOrSelf(tree, genesis, x, b)
    requires postponed == Path(tree, genesis, b)[tree[x].height + 1..]
    ensures SyncedAt(env, tree, genesis, tip, c')
    ensures Postponed(env, tree, genesis, x, c.txdb, b) == Adopted(tip, c'.txdb)
  {
    tip, c' := x, c;
    SelfAncestor(tree, genesis, x);
    for i := 0 to |postponed|
      invariant SyncedAt(env, tree, genesis, tip, c') && tree[tip].height == tree[x].height + i
      invariant Reached(env, tree, genesis, x, c.txdb, b, tip, c'.txdb)
    {
      var ok;
      ok, c' := ConnectOne(env, tree, genesis, b, x, c.txdb, tip, postponed[i], c');
      if !ok {
        return;
      }
      tip := postponed[i];
    }
    AllReached(env, tree, genesis, x, c.txdb, b, tip, c'.txdb);
  }

  /** One round of that loop. */
  method ConnectOne(env: Env, tree: Tree, ghost genesis: BlockId, ghost b: BlockId, ghost x: BlockId, ghost start: Index,
                    ghost tip: BlockId, y: BlockId, c: ChainData) returns (ok: bool, c': ChainData)
    requires SyncedAt(env, tree, genesis, tip, c) && x in tree && b in tree && AncestorOrSelf(tree, genesis, x, b)
    requires Reached(env, tree, genesis, x, start, b, tip, c.txdb)
    requires tree[tip].height < tree[b].height && y == Path(tree, genesis, b)[tree[tip].height + 1]
    ensures ok ==> y in tree && tree[y].height == tree[tip].height + 1
    ensures ok ==> SyncedAt(env, tree, genesis, y, c') && Reached(env, tree, genesis, x, start, b, y, c'.txdb)
    ensures !ok ==> c' == c && Postponed(env, tree, genesis, x, start, b) == Adopted(tip, c.txdb)
  {
    NextOnPath(tree, genesis, b, tip);
    ok, c' := SetBestChainInner(env, tree, genesis, y, c, tree[x].height + 1, start);
    if !ok {
      StopsHere(env, tree, genesis, x, start, b, tip, c.txdb);
    }
  }

  /** The blocks up to `tip` on the way from `x` to `b` have connected, leading from `start` to `db`. */
  ghost predicate Reached(env: Env, tree: Tree, genesis: BlockId, x: BlockId, start: Index, b: BlockId, tip: BlockId, db: Index)
    requires WellFormed(tree, genesis) && x in tree && b in tree && AncestorOrSelf(tree, genesis, x, b)
  {
    && tip in tree && AncestorOrSelf(tree, genesis, tip, b) && tree[x].height <= tree[tip].height
    && ConnectAll(env, Path(tree, genesis, tip), tree[x].height + 1, start) == Some(db)
  }

  lemma {:induction false} AllReached(env: Env, tree: Tree, genesis: BlockId, x: BlockId, start: Index, b: BlockId, tip: BlockId, db: Index)
    requires WellFormed(tree, genesis) && x in tree && b in tree && AncestorOrSelf(tree, genesis, x, b)
    requires Reached(env, tree, genesis, x, start, b, tip, db) && tree[tip].height == tree[b].height
    ensures Postponed(env, tree, genesis, x, start, b) == Adopted(tip, db)
  {
    PathPrefix(tree, genesis, b, tree[tip].height);
  }

  lemma {:induction false} StopsHere(env: Env, tree: Tree, genesis: BlockId, x: BlockId, start: Index, b: BlockId, tip: BlockId, db: Index)
    requires WellFormed(tree, genesis) && x in tree && b in tree && AncestorOrSelf(tree, genesis, x, b)
    requires Reached(env, tree, genesis, x, start, b, tip, db) && tree[tip].height < tree[b].height
    requires ConnectAll(env, Path(tree, genesis, b)[..tree[tip].height + 2], tree[x].height + 1, start).None?
    ensures Postponed(env, tree, genesis, x, start, b) == Adopted(tip, db)
  {
    PathPrefix(tree, genesis, b, tree[tip].height);
    FailsBeyond(env, Path(tree, genesis, b), tree[x].height + 1, tree[tip].height + 1, start);
  }

  lemma {:induction false} FailsBeyond(env: Env, q: seq<BlockId>, k: nat, n: nat, db: Index)
    requires 1 <= k <= n < |q| && ConnectAll(env, q[..n], k, db).Some? && ConnectAll(env, q[..n + 1], k, db).None?
    ensures ConnectAll(env, q, k, db).None? && ConnectAsFar(env, q, k, db) == (n, ConnectAll(env, q[..n], k, db).value)
  {
    ConnectFailsBeyond(env, q, k, n, db);
  }

  lemma {:induction false} NextOnPath(tree: Tree, genesis: BlockId, b: BlockId, tip: BlockId)
    requires WellFormed(tree, genesis) && b in tree && tip in tree && AncestorOrSelf(tree, genesis, tip, b)
    requires tree[tip].height < tree[b].height
    ensures var y := Path(tree, genesis, b)[tree[tip].height + 1];
      && y in tree && y != genesis && tree[y].prev == Some(tip) && tree[y].height == tree[tip].height + 1
      && AncestorOrSelf(tree, genesis, y, b) && Path(tree, genesis, y) == Path(tree, genesis, b)[..tree[y].height + 1]
  {
    StepBack(tree, genesis, b, tree[tip].height + 1);
    PathPrefix(tree, genesis, b, tree[tip].height + 1);
  }

  lemma {:induction false} SuffixFrom(q: seq<BlockId>, h: nat)
    requires h < |q|
    ensures q[h..] == [q[h]] + q[h + 1..]
  {
  }

  lemma {:induction false} OneEarlier(tree: Tree, genesis: BlockId, b: BlockId, best: BlockId, x: BlockId)
    requires WellFormed(tree, genesis) && b in tree && best in tree && x in tree && AncestorOrSelf(tree, genesis, x, b)
    requires tree[x].prev.Some? && tree[x].prev.value in tree && tree[tree[x].prev.value].chainTrust > tree[best].chainTrust
    ensures tree[tree[x].prev.value].height == tree[x].height - 1 && AncestorOrSelf(tree, genesis, tree[x].prev.value, b)
    ensures Intermediate(tree, genesis, best, tree[x].prev.value) == Intermediate(tree, genesis, best, x)
  {
    StepBack(tree, genesis, b, tree[x].height);
  }

  /** The first block of the new branch whose chain is already better than the best one, and the
      blocks after it, whose connection is postponed. */
  method FindIntermediate(tree: Tree, ghost genesis: BlockId, b: BlockId, best: BlockId)
    returns (x: BlockId, postponed: seq<BlockId>)
    requires WellFormed(tree, genesis) && b in tree && best in tree
    ensures x == Intermediate(tree, genesis, best, b)
    ensures postponed == Path(tree, genesis, b)[tree[x].height + 1..]
  {
    ghost var q := Path(tree, genesis, b);
    x, postponed := b, [];
    while tree[x].prev.Some? && tree[tree[x].prev.value].chainTrust > tree[best].chainTrust
      invariant x in tree && AncestorOrSelf(tree, genesis, x, b)
      invariant Intermediate(tree, genesis, best, x) == Intermediate(tree, genesis, best, b)
      invariant postponed == q[tree[x].height + 1..]
      decreases tree[x].height
    {
      OneEarlier(tree, genesis, b, best, x);
      SuffixFrom(q, tree[x].height);
      postponed := [x] + postponed;
      x := tree[x].prev.value;
    }
  }

  class ChainState {
    const env: Env
    const genesis: BlockId

    /** mapBlockIndex. */
    var tree: Tree
    var chain: ChainData
    /** pindexBest, and pblockindexFBBHLast. */
    var best: BlockId
    var lastFound: Option<BlockId>

    ghost function Now(): Chain
      reads this
    {
      Chain(tree, best, chain.txdb)
    }

    /** The invariant between calls. */
    ghost predicate Synced()
      reads this
    {
      && SyncedAt(env, tree, genesis, best, chain)
      && (lastFound.Some? ==>
            lastFound.value in tree && AncestorOrSelf(tree, genesis, lastFound.value, best))
    }

    /** The state after the genesis block has become the best block. */
    constructor (env: Env, genesis: BlockId, record: BlockIndex)
      requires record.prev == None && record.height == 0
      ensures Synced() && this.env == env && this.genesis == genesis
      ensures tree == map[genesis := record] && best == genesis && chain.txdb == map[]
    {
      this.env, this.genesis := env, genesis;
      tree, chain := map[genesis := record], ChainData(map[], map[], map[genesis := 0]);
      best, lastFound := genesis, None;
      new;
      GenesisSynced(env, genesis, chain);
    }

    /** SetBestChain.  When it succeeds `b` is the best block, and the index, the links and the
        supplies are those of its chain exactly when that whole chain replays; otherwise they
        are those of `tip`, the last block that connected. */
    method SetBestChain(b: BlockId) returns (ok: bool, ghost tip: BlockId)
      requires Synced() && b in tree
      modifies this`chain, this`best, this`lastFound
      ensures !ok ==> Synced() && chain.txdb == old(chain.txdb) && chain.pnext == old(chain.pnext) && best == old(best)
      ensures ok ==> best == b && lastFound == None
      ensures SetBest(env, tree, genesis, old(best), old(chain.txdb), b) == if ok then Adopted(tip, chain.txdb) else Refused
      ensures ok <==> Adoptable(env, tree, genesis, old(best), old(chain.txdb), b)
      ensures ok ==> SyncedAt(env, tree, genesis, tip, chain) && AncestorOrSelf(tree, genesis, tip, b)
      ensures ok ==> (tip == b <==> Replay(env, Path(tree, genesis, b)).Some?)
      ensures ok ==> (Synced() <==> Replay(env, Path(tree, genesis, b)).Some?)
    {
      SetBestTracks(env, tree, genesis, best, chain.txdb, b);
      var c;
      ok, tip, c := SelectBest(env, tree, genesis, best, b, chain);
      chain := c;
      if ok {
        best, lastFound := b, None;
      }
    }

    /** AddToBlockIndex: record the block, and switch to its chain if that has more trust. */
    method AddToBlockIndex(b: BlockId, record: BlockIndex) returns (ok: bool)
      requires Synced() && b !in tree
      requires record.prev.Some? && record.prev.value in tree
      requires record.height == tree[record.prev.value].height + 1
      modifies this
      ensures tree == old(tree)[b := record] && WellFormed(tree, genesis)
      ensures record.chainTrust <= old(tree[best]).chainTrust ==> ok && best == old(best)
      ensures record.chainTrust > old(tree[best]).chainTrust ==> best == if ok then b else old(best)
      ensures (Now(), ok) == AddBlock(env, genesis, old(Now()), b, record)
      ensures Synced() <==> best != b || Replay(env, Path(tree, genesis, b)).Some?
      ensures old(ExactState(env, genesis, Now()) && UniqueState(env, genesis, Now())) && Synced() ==> ExactState(env, genesis, Now())
    {
      if lastFound.Some? {
        InsertKeepsAncestor(tree, genesis, b, record, lastFound.value, best);
      }
      BestAfter(env, genesis, Now(), b, record);
      var top, c;
      ok, top, c := RecordBlock(env, tree, genesis, best, chain, b, record);
      var t, last := tree[b := record], if top != best then None else lastFound;
      assert last.Some? ==> last.value in t && AncestorOrSelf(t, genesis, last.value, top);
      tree, chain, best, lastFound := t, c, top, last;
    }

    /** CBlockIndex::IsInMainChain. */
    method IsInMainChain(b: BlockId) returns (r: bool)
      requires Synced() && b in tree
      ensures r == AncestorOrSelf(tree, genesis, b, best)
    {
      MainChainTest(tree, genesis, best, chain.pnext, b);
      return b in chain.pnext || b == best;
    }

    /** FindBlockByHeight with its remembered block: the same block as the plain walk from the
        tip, whatever block was remembered. */
    method FindBlockByHeight(h: nat) returns (x: BlockId)
      requires Synced() && h <= tree[best].height
      modifies this`lastFound
      ensures x in tree && tree[x].height == h && x == Path(tree, genesis, best)[h]
      ensures Synced() && lastFound == Some(x)
    {
      x := FindByHeight(tree, genesis, best, chain.pnext, lastFound, h);
      StepBack(tree, genesis, best, h);
      lastFound := Some(x);
    }
  }

  /** An adopted block's chain is the one the state is that of exactly when it replays. */
  lemma {:induction false} AdoptedSynced(env: Env, tree: Tree, genesis: BlockId, best: BlockId, db: Index, b: BlockId, tip: BlockId, c: ChainData)
    requires WellFormed(tree, genesis) && best in tree && b in tree && TracksAt(env, tree, genesis, best, db)
    requires SetBest(env, tree, genesis, best, db, b) == Adopted(tip, c.txdb) && SyncedAt(env, tree, genesis, tip, c)
    ensures SyncedAt(env, tree, genesis, b, c) <==> Replay(env, Path(tree, genesis, b)).Some?
  {
    SetBestTracks(env, tree, genesis, best, db, b);
  }

  lemma {:induction false} BestAfter(env: Env, genesis: BlockId, s: Chain, b: BlockId, record: BlockIndex)
    requires Proper(s, genesis) && Attaches(s, b, record) && TracksAt(env, s.tree, genesis, s.best, s.db)
    ensures var (u, ok) := AddBlock(env, genesis, s, b, record);
      && u.tree == s.tree[b := record]
      && (record.chainTrust <= s.tree[s.best].chainTrust ==> u.best == s.best && ok)
      && (record.chainTrust > s.tree[s.best].chainTrust ==> u.best == if ok then b else s.best)
      && (ExactState(env, genesis, s) && UniqueState(env, genesis, s) && Replay(env, Path(u.tree, genesis, u.best)).Some? ==>
            ExactState(env, genesis, u))
  {
    AddBlockExact(env, genesis, s, b, record);
  }

  /** The part of AddToBlockIndex that may move the best chain: the new best block and its data. */
  method RecordBlock(env: Env, tree: Tree, ghost genesis: BlockId, best: BlockId, c: ChainData, b: BlockId, record: BlockIndex)
    returns (ok: bool, top: BlockId, c': ChainData)
    requires SyncedAt(env, tree, genesis, best, c) && Attaches(Chain(tree, best, c.txdb), b, record)
    ensures WellFormed(tree[b := record], genesis) && top == (if ok && record.chainTrust > tree[best].chainTrust then b else best)
    ensures (Chain(tree[b := record], top, c'.txdb), ok) == AddBlock(env, genesis, Chain(tree, best, c.txdb), b, record)
    ensures SyncedAt(env, tree[b := record], genesis, top, c') <==>
      top != b || Replay(env, Path(tree[b := record], genesis, b)).Some?
  {
    InsertKeepsSynced(env, tree, genesis, best, c, b, record);
    var t, d := tree[b := record], c.(supply := c.supply[b := 0]);
    if record.chainTrust <= tree[best].chainTrust {
      return true, best, d;
    }
    ghost var tip;
    ok, tip, c' := SelectBest(env, t, genesis, best, b, d);
    if ok {
      AdoptedSynced(env, t, genesis, best, d.txdb, b, tip, c');
    }
    return ok, if ok then b else best, c';
  }

  /** The search of FindBlockByHeight from the nearest of genesis, tip and remembered block. */
  method FindByHeight(tree: Tree, genesis: BlockId, best: BlockId, pnext: map<BlockId, BlockId>, last: Option<BlockId>, h: nat)
    returns (x: BlockId)
    requires WellFormed(tree, genesis) && best in tree && LinksExactly(pnext, Path(tree, genesis, best))
    requires last.Some? ==> last.value in tree && AncestorOrSelf(tree, genesis, last.value, best)
    requires h <= tree[best].height
    ensures x in tree && x == Path(tree, genesis, best)[h]
  {
    ghost var p := Path(tree, genesis, best);
    x := if h < tree[best].height / 2 then genesis else best;
    if last.Some? && Abs(h - tree[x].height) > Abs(h - tree[last.value].height) {
      x := last.value;
    }
    assert AncestorOrSelf(tree, genesis, x, best);
    ghost var from := x;
    x := WalkBack(tree, genesis, x, h);
    PathPrefix(tree, genesis, best, tree[from].height);
    while tree[x].height < h
      invariant x in tree && tree[x].height <= h && x == p[tree[x].height]
      decreases h - tree[x].height
    {
      assert Linked(pnext, p, tree[x].height);
      StepBack(tree, genesis, best, tree[x].height + 1);
      x := pnext[x];
    }
  }

  function Abs(n: int): nat { if n < 0 then -n else n }

  /** Being linked, or being the tip, is being on the chain. */
  lemma {:induction false} MainChainTest(t: Tree, genesis: BlockId, best: BlockId, pnext: map<BlockId, BlockId>, b: BlockId)
    requires WellFormed(t, genesis) && best in t && b in t && LinksExactly(pnext, Path(t, genesis, best))
    ensures (b in pnext || b == best) <==> AncestorOrSelf(t, genesis, b, best)
  {
    var p := Path(t, genesis, best);
    if b in pnext {
      assert Inner(p, b);
      var i :| 0 <= i < |p| - 1 && p[i] == b;
      PathPrefix(t, genesis, best, i);
    }
    if AncestorOrSelf(t, genesis, b, best) && b != best {
      assert Linked(pnext, p, t[b].height);
    }
  }

  lemma {:induction false} InsertKeepsAncestor(t: Tree, genesis: BlockId, n: BlockId, x: BlockIndex, a: BlockId, b: BlockId)
    requires WellFormed(t, genesis) && n !in t && a in t && b in t && AncestorOrSelf(t, genesis, a, b)
    requires x.prev.Some? && x.prev.value in t && x.height == t[x.prev.value].height + 1
    ensures WellFormed(t[n := x], genesis) && AncestorOrSelf(t[n := x], genesis, a, b)
  {
    PathAfterInsert(t, genesis, n, x, b);
  }

  lemma {:induction false} InsertKeepsSynced(env: Env, t: Tree, genesis: BlockId, best: BlockId, c: ChainData, n: BlockId, x: BlockIndex)
    requires SyncedAt(env, t, genesis, best, c) && n !in t
    requires x.prev.Some? && x.prev.value in t && x.height == t[x.prev.value].height + 1
    ensures SyncedAt(env, t[n := x], genesis, best, c.(supply := c.supply[n := 0]))
  {
    PathAfterInsert(t, genesis, n, x, best);
    var p := Path(t, genesis, best);
    var supply := c.supply[n := 0];
    forall i | 0 <= i < |p| ensures SameAt(p, c.supply, supply, i) {
      PathPrefix(t, genesis, best, i);
    }
    SuppliesSame(env, p, c.supply, supply);
  }

  /** The part of SetBestChain that touches the index and the links. */
  method SelectBest(env: Env, tree: Tree, ghost genesis: BlockId, best: BlockId, b: BlockId, c: ChainData)
    returns (ok: bool, ghost tip: BlockId, c': ChainData)
    requires SyncedAt(env, tree, genesis, best, c) && b in tree
    ensures !ok ==> SyncedAt(env, tree, genesis, best, c') && c'.txdb == c.txdb && c'.pnext == c.pnext
    ensures ok ==> SyncedAt(env, tree, genesis, tip, c')
    ensures SetBest(env, tree, genesis, best, c.txdb, b) == if ok then Adopted(tip, c'.txdb) else Refused
  {
    if tree[b].prev == Some(best) {
      ChildPath(tree, genesis, b, best);
      ok, c' := SetBestChainInner(env, tree, genesis, b, c, tree[b].height, c.txdb);
      return ok, b, c';
    }
    var x, postponed := FindIntermediate(tree, genesis, b, best);
    ok, c' := Reorganize(env, tree, genesis, best, x, c);
    if !ok {
      return false, best, c';
    }
    var last;
    last, c' := ConnectPostponed(env, tree, genesis, b, x, postponed, c');
    return true, last, c';
  }

  lemma {:induction false} GenesisSynced(env: Env, genesis: BlockId, c: ChainData)
    requires c == ChainData(map[], map[], map[genesis := 0])
    ensures ChainAt(env, [genesis], c)
  {
    assert [genesis][..1] == [genesis];
    assert UnspentSet(map[]) == {};
    assert LastSupplyOk(env, [genesis], c.supply);
  }

  /** In every synced state the tip's nMoneySupply is the value of all unspent indexed outputs,
      and the spendable outputs are those of a replay of the chain. */
  lemma {:induction false} TipSupplyIsUnspentValue(env: Env, t: Tree, genesis: BlockId, tip: BlockId, c: ChainData)
    requires SyncedAt(env, t, genesis, tip, c)
    ensures c.supply[tip] == Supply(env, c.txdb)
    ensures UnspentSet(c.txdb) == UnspentSet(Replay(env, Path(t, genesis, tip)).value)
  {
    var p := Path(t, genesis, tip);
    assert LastSupplyOk(env, p, c.supply);
    SupplyBelow(env, c.txdb, Replay(env, p).value);
    BelowSameUnspent(c.txdb, Replay(env, p).value);
  }
}
