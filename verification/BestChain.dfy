/** What switching the best chain does to the transaction index (main.cpp), as functions of the
    block tree, the best block and the index: the fork, the rollback, the connection of the new
    branch up to its intermediate block, and the postponed blocks after it. */
module BestChain {
  import opened Basics
  import opened BlockTree
  import opened Transactions
  import opened Ledger
  import opened LedgerReplay
  import opened BranchRollback

  // ---------------------------------------------------------------- forks

  /** The last block two paths have in common is at height `f`. */
  ghost predicate ForkAt(p: seq<BlockId>, q: seq<BlockId>, f: nat) {
    && f < |p| && f < |q| && p[..f + 1] == q[..f + 1]
    && forall i :: f < i < |p| && i < |q| ==> p[i] != q[i]
  }

  /** How many leading blocks two paths share. */
  ghost function CommonLength(p: seq<BlockId>, q: seq<BlockId>): (k: nat)
    ensures k <= |p| && k <= |q| && p[..k] == q[..k]
    ensures p != [] && q != [] && p[0] == q[0] ==> k >= 1
  {
    if p == [] || q == [] || p[0] != q[0] then 0
    else
      var k := CommonLength(p[1..], q[1..]);
      assert p[..k + 1] == [p[0]] + p[1..][..k] && q[..k + 1] == [q[0]] + q[1..][..k];
      k + 1
  }

  lemma {:induction false} ForkIsCommon(p: seq<BlockId>, q: seq<BlockId>, f: nat)
    requires ForkAt(p, q, f)
    ensures CommonLength(p, q) == f + 1
    decreases f
  {
    assert p[..f + 1][0] == q[..f + 1][0];
    var a, b := p[1..], q[1..];
    if f == 0 {
      assert a != [] && b != [] ==> p[1] != q[1];
    } else {
      forall i | 0 <= i < f ensures a[i] == b[i] {
        assert p[..f + 1][i + 1] == q[..f + 1][i + 1];
      }
      ForkIsCommon(a, b, f - 1);
    }
  }

  // ---------------------------------------------------------------- connecting a branch

  /** Connects the blocks of `path` beyond its first `k`, in order, as far as they connect: how
      long the connected path is, and the index. */
  ghost function ConnectAsFar(env: Env, path: seq<BlockId>, k: nat, db: Index): (r: (nat, Index))
    requires 1 <= k <= |path|
    ensures k <= r.0 <= |path|
    decreases |path|, 1
  {
    if |path| == k then (k, db) else ConnectLast(env, path, k, db)
  }

  /** ... when there is at least one such block: the last of them after the others. */
  ghost function ConnectLast(env: Env, path: seq<BlockId>, k: nat, db: Index): (r: (nat, Index))
    requires 1 <= k < |path|
    ensures k <= r.0 <= |path|
    decreases |path|, 0
  {
    var before := ConnectAsFar(env, path[..|path| - 1], k, db);
    if before.0 < |path| - 1 || ConnectBlock(env, path, before.1).None? then before
    else (|path|, ConnectBlock(env, path, before.1).value.view)
  }

  /** ... all of them, or failure. */
  ghost function ConnectAll(env: Env, path: seq<BlockId>, k: nat, db: Index): Option<Index>
    requires 1 <= k <= |path|
  {
    var r := ConnectAsFar(env, path, k, db);
    if r.0 == |path| then Some(r.1) else None
  }

  /** One more block. */
  lemma {:induction false} ConnectAllStep(env: Env, path: seq<BlockId>, k: nat, db: Index)
    requires 1 <= k < |path|
    ensures var w := ConnectAll(env, path[..|path| - 1], k, db);
      ConnectAll(env, path, k, db) ==
        if w.None? || ConnectBlock(env, path, w.value).None? then None
        else Some(ConnectBlock(env, path, w.value).value.view)
  {
    assert ConnectAsFar(env, path, k, db) == ConnectLast(env, path, k, db);
  }

  /** A failing block fails every longer path, which then connects only as far as before it. */
  lemma {:induction false} ConnectFailsBeyond(env: Env, path: seq<BlockId>, k: nat, n: nat, db: Index)
    requires 1 <= k <= n < |path| && ConnectAll(env, path[..n + 1], k, db).None? && ConnectAll(env, path[..n], k, db).Some?
    ensures ConnectAsFar(env, path, k, db) == ConnectAsFar(env, path[..n], k, db)
    ensures ConnectAsFar(env, path, k, db).0 == n && ConnectAll(env, path, k, db).None?
    decreases |path|
  {
    var q := path[..|path| - 1];
    if |path| == n + 1 {
      assert path[..n + 1] == path && path[..n] == q;
    } else {
      assert q[..n] == path[..n] && q[..n + 1] == path[..n + 1];
      ConnectFailsBeyond(env, q, k, n, db);
      StaysShort(env, path, k, db);
    }
  }

  lemma {:induction false} StaysShort(env: Env, path: seq<BlockId>, k: nat, db: Index)
    requires 1 <= k < |path| && ConnectAsFar(env, path[..|path| - 1], k, db).0 < |path| - 1
    ensures ConnectAsFar(env, path, k, db) == ConnectAsFar(env, path[..|path| - 1], k, db)
  {
  }

  /** The first n blocks are connected in `w`, in step with their replay, and all exactly when the
      whole path replays; `w` is exact if `exact`. */
  ghost predicate FarOk(env: Env, path: seq<BlockId>, n: nat, w: Index, exact: bool)
    requires 1 <= n <= |path|
  {
    && Tracks(env, path[..n], w) && (n == |path| <==> Replay(env, path).Some?)
    && (exact ==> Replay(env, path[..n]) == Some(w))
  }

  lemma {:induction false} FarStop(env: Env, path: seq<BlockId>, n: nat, w: Index, exact: bool)
    requires 1 <= n < |path| - 1 && FarOk(env, path[..|path| - 1], n, w, exact)
    ensures FarOk(env, path, n, w, exact)
  {
    assert path[..|path| - 1][..n] == path[..n];
    ReplayFailsBeyond(env, path, |path| - 1);
  }

  lemma {:induction false} FarLast(env: Env, path: seq<BlockId>, w: Index, exact: bool)
    requires |path| >= 2 && FarOk(env, path[..|path| - 1], |path| - 1, w, exact)
    ensures var acc := ConnectBlock(env, path, w);
      if acc.None? then FarOk(env, path, |path| - 1, w, exact) else FarOk(env, path, |path|, acc.value.view, exact)
  {
    var q := path[..|path| - 1];
    assert q[..|path| - 1] == q && path[..|path|] == path;
    LastConnects(env, path, w, exact);
  }

  /** From an index in step with the first k blocks, exactly the replayable prefixes connect, and
      the index stays in step; from their exact replay it stays exact. */
  lemma {:induction false} ConnectAsFarTracks(env: Env, path: seq<BlockId>, k: nat, db: Index)
    requires 1 <= k <= |path| && Tracks(env, path[..k], db)
    ensures var r := ConnectAsFar(env, path, k, db); FarOk(env, path, r.0, r.1, Replay(env, path[..k]) == Some(db))
    decreases |path|
  {
    if |path| == k {
      assert path[..k] == path;
    } else {
      var q := path[..|path| - 1];
      assert q[..k] == path[..k];
      ConnectAsFarTracks(env, q, k, db);
      var before := ConnectAsFar(env, q, k, db);
      if before.0 < |path| - 1 {
        FarStop(env, path, before.0, before.1, Replay(env, path[..k]) == Some(db));
      } else {
        FarLast(env, path, before.1, Replay(env, path[..k]) == Some(db));
      }
    }
  }

  lemma {:induction false} LastConnects(env: Env, path: seq<BlockId>, db: Index, exact: bool)
    requires |path| >= 2 && Tracks(env, path[..|path| - 1], db) && (exact ==> Replay(env, path[..|path| - 1]) == Some(db))
    ensures ConnectBlock(env, path, db).Some? <==> Replay(env, path).Some?
    ensures ConnectBlock(env, path, db).Some? ==> Tracks(env, path, ConnectBlock(env, path, db).value.view)
    ensures ConnectBlock(env, path, db).Some? && exact ==> Replay(env, path) == Some(ConnectBlock(env, path, db).value.view)
  {
    ConnectTracks(env, path, db);
    if ConnectBlock(env, path, db).Some? && exact {
      ExactLast(env, path, db);
    }
  }

  // ---------------------------------------------------------------- choosing the best chain

  /** The first block of the branch to `b` that has more trust than the best block: the walk goes
      back while the parent still has more. */
  ghost function Intermediate(tree: Tree, genesis: BlockId, best: BlockId, b: BlockId): (x: BlockId)
    requires WellFormed(tree, genesis) && best in tree && b in tree
    ensures x in tree && AncestorOrSelf(tree, genesis, x, b)
    ensures tree[x].prev.Some? ==> tree[tree[x].prev.value].chainTrust <= tree[best].chainTrust
    ensures x != b ==> tree[x].chainTrust > tree[best].chainTrust
    decreases tree[b].height
  {
    SelfAncestor(tree, genesis, b);
    if tree[b].prev.Some? && tree[tree[b].prev.value].chainTrust > tree[best].chainTrust then
      var x := Intermediate(tree, genesis, best, tree[b].prev.value);
      AncestorOfParent(tree, genesis, x, b);
      x
    else b
  }

  /** SetBestChain refuses `b`, or adopts it; then `tip` is the last block that connected. */
  datatype Outcome = Refused | Adopted(tip: BlockId, db: Index)

  /** What SetBestChain does to the index. */
  ghost function SetBest(env: Env, tree: Tree, genesis: BlockId, best: BlockId, db: Index, b: BlockId): (r: Outcome)
    requires WellFormed(tree, genesis) && best in tree && b in tree
  {
    if tree[b].prev == Some(best) then
      var w := ConnectAll(env, Path(tree, genesis, b), tree[b].height, db);
      if w.None? then Refused else Adopted(b, w.value)
    else
      var x := Intermediate(tree, genesis, best, b);
      var w := Switched(env, Path(tree, genesis, best), Path(tree, genesis, x), db);
      if w.None? then Refused else Postponed(env, tree, genesis, x, w.value, b)
  }

  /** The postponed blocks, those of `b`'s path after `x`, as far as they connect. */
  ghost function Postponed(env: Env, tree: Tree, genesis: BlockId, x: BlockId, db: Index, b: BlockId): (r: Outcome)
    requires WellFormed(tree, genesis) && x in tree && b in tree && AncestorOrSelf(tree, genesis, x, b)
    ensures r.Adopted?
  {
    var r := ConnectAsFar(env, Path(tree, genesis, b), tree[x].height + 1, db);
    Adopted(Path(tree, genesis, b)[r.0 - 1], r.1)
  }

  /** The database transaction of Reorganize: roll back to the fork, connect the new branch. */
  ghost function Switched(env: Env, p: seq<BlockId>, q: seq<BlockId>, db: Index): Option<Index>
    requires p != [] && q != [] && p[0] == q[0]
  {
    var k := CommonLength(p, q);
    var w := Rollback(env, p, k, db);
    if w.None? then None else ConnectAll(env, q, k, w.value)
  }

  /** Switching from an index in step succeeds exactly when the rollback does and the new chain
      replays. */
  lemma {:induction false} SwitchedTracks(env: Env, p: seq<BlockId>, q: seq<BlockId>, db: Index)
    requires p != [] && q != [] && p[0] == q[0] && Tracks(env, p, db)
    ensures Switched(env, p, q, db).Some? <==>
      Rollback(env, p, CommonLength(p, q), db).Some? && Replay(env, q).Some?
    ensures Switched(env, p, q, db).Some? ==> Tracks(env, q, Switched(env, p, q, db).value)
  {
    var k := CommonLength(p, q);
    RollbackTracks(env, p, k, db);
    var w := Rollback(env, p, k, db);
    if w.Some? {
      ConnectAsFarTracks(env, q, k, w.value);
      assert q[..|q|] == q;
    }
  }

  /** With unique ids on the old chain, switching from its exact replay gives exactly the replay of
      the new chain, or fails with it. */
  lemma {:induction false} SwitchedExact(env: Env, p: seq<BlockId>, q: seq<BlockId>, db: Index)
    requires p != [] && q != [] && p[0] == q[0] && Replay(env, p) == Some(db) && UniqueAlong(env, p)
    ensures Switched(env, p, q, db) == Replay(env, q)
  {
    var k := CommonLength(p, q);
    ExactRollback(env, p, k, db);
    ReplayPrefix(env, p, k);
    var w := Rollback(env, p, k, db).value;
    ConnectAsFarTracks(env, q, k, w);
    assert q[..|q|] == q;
  }

  // ---------------------------------------------------------------- what SetBestChain guarantees

  /** The index is in step with the replay of `best`'s chain. */
  ghost predicate TracksAt(env: Env, tree: Tree, genesis: BlockId, best: BlockId, db: Index)
    requires WellFormed(tree, genesis) && best in tree
  {
    Tracks(env, Path(tree, genesis, best), db)
  }

  /** When SetBestChain adopts a block: the old branch rolls back, and the new chain replays as far
      as its intermediate block. */
  ghost predicate Adoptable(env: Env, tree: Tree, genesis: BlockId, best: BlockId, db: Index, b: BlockId)
    requires WellFormed(tree, genesis) && best in tree && b in tree
  {
    if tree[b].prev == Some(best) then Replay(env, Path(tree, genesis, b)).Some?
    else
      var p, q := Path(tree, genesis, best), Path(tree, genesis, Intermediate(tree, genesis, best, b));
      Rollback(env, p, CommonLength(p, q), db).Some? && Replay(env, q).Some?
  }

  lemma {:induction false} ChildPath(tree: Tree, genesis: BlockId, b: BlockId, best: BlockId)
    requires WellFormed(tree, genesis) && b in tree && best in tree && tree[b].prev == Some(best)
    ensures var q := Path(tree, genesis, b); |q| >= 2 && q[..|q| - 1] == Path(tree, genesis, best)
  {
    var q := Path(tree, genesis, b);
    assert q == Path(tree, genesis, best) + [b];
  }

  lemma {:induction false} TipPlace(tree: Tree, genesis: BlockId, b: BlockId, n: nat)
    requires WellFormed(tree, genesis) && b in tree && 1 <= n <= tree[b].height + 1
    ensures var y := Path(tree, genesis, b)[n - 1];
      && y in tree && Path(tree, genesis, y) == Path(tree, genesis, b)[..n] && AncestorOrSelf(tree, genesis, y, b)
      && (y == b <==> n == tree[b].height + 1)
  {
    PathPrefix(tree, genesis, b, n - 1);
  }

  lemma {:induction false} PostponedTracks(env: Env, tree: Tree, genesis: BlockId, x: BlockId, db: Index, b: BlockId)
    requires WellFormed(tree, genesis) && x in tree && b in tree && AncestorOrSelf(tree, genesis, x, b)
    requires TracksAt(env, tree, genesis, x, db)
    ensures var r := Postponed(env, tree, genesis, x, db, b);
      && r.tip in tree && AncestorOrSelf(tree, genesis, r.tip, b) && TracksAt(env, tree, genesis, r.tip, r.db)
      && (r.tip == b <==> Replay(env, Path(tree, genesis, b)).Some?)
      && (ExactAt(env, tree, genesis, x, db) ==> ExactAt(env, tree, genesis, r.tip, r.db))
  {
    var q := Path(tree, genesis, b);
    PathPrefix(tree, genesis, b, tree[x].height);
    ConnectAsFarTracks(env, q, tree[x].height + 1, db);
    var (n, w) := ConnectAsFar(env, q, tree[x].height + 1, db);
    TipPlace(tree, genesis, b, n);
    assert Postponed(env, tree, genesis, x, db, b) == Adopted(q[n - 1], w);
    assert Path(tree, genesis, q[n - 1]) == q[..n];
  }

  /** The case of a child of the best block. */
  lemma {:induction false} AttachTracks(env: Env, tree: Tree, genesis: BlockId, best: BlockId, db: Index, b: BlockId)
    requires WellFormed(tree, genesis) && best in tree && b in tree && tree[b].prev == Some(best)
    requires TracksAt(env, tree, genesis, best, db)
    ensures var r := SetBest(env, tree, genesis, best, db, b);
      && (r.Adopted? <==> Replay(env, Path(tree, genesis, b)).Some?)
      && (r.Adopted? ==> r.tip == b && TracksAt(env, tree, genesis, b, r.db))
      && (r.Adopted? && ExactAt(env, tree, genesis, best, db) ==> ExactAt(env, tree, genesis, b, r.db))
  {
    var q := Path(tree, genesis, b);
    ChildPath(tree, genesis, b, best);
    ConnectAsFarTracks(env, q, tree[b].height, db);
    assert q[..|q|] == q;
  }

  /** From an index in step, `b` is adopted exactly when it is adoptable; the index is then that of
      the last block that connected, which is `b` exactly when the whole chain replays. */
  lemma {:induction false} SetBestTracks(env: Env, tree: Tree, genesis: BlockId, best: BlockId, db: Index, b: BlockId)
    requires WellFormed(tree, genesis) && best in tree && b in tree && TracksAt(env, tree, genesis, best, db)
    ensures var r := SetBest(env, tree, genesis, best, db, b);
      && (r.Adopted? <==> Adoptable(env, tree, genesis, best, db, b))
      && (r.Adopted? ==>
            && r.tip in tree && AncestorOrSelf(tree, genesis, r.tip, b) && TracksAt(env, tree, genesis, r.tip, r.db)
            && (r.tip == b <==> Replay(env, Path(tree, genesis, b)).Some?))
  {
    if tree[b].prev == Some(best) {
      SelfAncestor(tree, genesis, b);
      AttachTracks(env, tree, genesis, best, db, b);
    } else {
      var x := Intermediate(tree, genesis, best, b);
      SwitchedTracks(env, Path(tree, genesis, best), Path(tree, genesis, x), db);
      var w := Switched(env, Path(tree, genesis, best), Path(tree, genesis, x), db);
      if w.Some? {
        PostponedTracks(env, tree, genesis, x, w.value, b);
      }
    }
  }

  /** With unique ids on the best chain an exact index stays exact. */
  lemma {:induction false} SetBestExact(env: Env, tree: Tree, genesis: BlockId, best: BlockId, db: Index, b: BlockId)
    requires WellFormed(tree, genesis) && best in tree && b in tree
    requires ExactAt(env, tree, genesis, best, db) && UniqueAlong(env, Path(tree, genesis, best))
    ensures var r := SetBest(env, tree, genesis, best, db, b);
      r.Adopted? ==> r.tip in tree && ExactAt(env, tree, genesis, r.tip, r.db)
  {
    if tree[b].prev == Some(best) {
      AttachTracks(env, tree, genesis, best, db, b);
    } else {
      var x := Intermediate(tree, genesis, best, b);
      SwitchedExact(env, Path(tree, genesis, best), Path(tree, genesis, x), db);
      var w := Switched(env, Path(tree, genesis, best), Path(tree, genesis, x), db);
      if w.Some? {
        PostponedTracks(env, tree, genesis, x, w.value, b);
      }
    }
  }

  /** A chain that replays is adopted, entirely, from an exact index with unique ids. */
  lemma {:induction false} ValidChainAdopted(env: Env, tree: Tree, genesis: BlockId, best: BlockId, db: Index, b: BlockId)
    requires WellFormed(tree, genesis) && best in tree && b in tree
    requires ExactAt(env, tree, genesis, best, db) && UniqueAlong(env, Path(tree, genesis, best))
    requires Replay(env, Path(tree, genesis, b)).Some?
    ensures SetBest(env, tree, genesis, best, db, b) == Adopted(b, Replay(env, Path(tree, genesis, b)).value)
  {
    SetBestTracks(env, tree, genesis, best, db, b);
    SetBestExact(env, tree, genesis, best, db, b);
    if tree[b].prev != Some(best) {
      var x := Intermediate(tree, genesis, best, b);
      PathPrefix(tree, genesis, b, tree[x].height);
      ReplayPrefix(env, Path(tree, genesis, b), tree[x].height + 1);
      SwitchedExact(env, Path(tree, genesis, best), Path(tree, genesis, x), db);
    }
  }

  // ---------------------------------------------------------------- adding a block

  /** mapBlockIndex, pindexBest and the "tx" table. */
  datatype Chain = Chain(tree: Tree, best: BlockId, db: Index)

  /** A new block whose parent is known. */
  ghost predicate Attaches(s: Chain, b: BlockId, record: BlockIndex) {
    && b !in s.tree && record.prev.Some? && record.prev.value in s.tree
    && record.height == s.tree[record.prev.value].height + 1
  }

  ghost predicate Proper(s: Chain, genesis: BlockId) {
    WellFormed(s.tree, genesis) && s.best in s.tree
  }

  /** AddToBlockIndex: record the block, and switch to it if it has more trust. */
  ghost function AddBlock(env: Env, genesis: BlockId, s: Chain, b: BlockId, record: BlockIndex): (r: (Chain, bool))
    requires Proper(s, genesis) && Attaches(s, b, record)
    ensures Proper(r.0, genesis)
  {
    PathAfterInsert(s.tree, genesis, b, record, s.best);
    var t := s.tree[b := record];
    if record.chainTrust <= s.tree[s.best].chainTrust then (s.(tree := t), true)
    else
      var r := SetBest(env, t, genesis, s.best, s.db, b);
      if r.Refused? then (s.(tree := t), false) else (Chain(t, b, r.db), true)
  }

  ghost predicate ExactState(env: Env, genesis: BlockId, s: Chain)
    requires Proper(s, genesis)
  {
    ExactAt(env, s.tree, genesis, s.best, s.db)
  }

  ghost predicate UniqueState(env: Env, genesis: BlockId, s: Chain)
    requires Proper(s, genesis)
  {
    UniqueAlong(env, Path(s.tree, genesis, s.best))
  }

  /** Adding a block keeps an exact index exact while ids are unique and the best chain replays. */
  lemma {:induction false} AddBlockExact(env: Env, genesis: BlockId, s: Chain, b: BlockId, record: BlockIndex)
    requires Proper(s, genesis) && Attaches(s, b, record) && TracksAt(env, s.tree, genesis, s.best, s.db)
    ensures var u := AddBlock(env, genesis, s, b, record).0;
      ExactState(env, genesis, s) && UniqueState(env, genesis, s) && Replay(env, Path(u.tree, genesis, u.best)).Some? ==>
        ExactState(env, genesis, u)
  {
    var t := s.tree[b := record];
    PathAfterInsert(s.tree, genesis, b, record, s.best);
    SetBestTracks(env, t, genesis, s.best, s.db, b);
    if ExactState(env, genesis, s) && UniqueState(env, genesis, s) {
      SetBestExact(env, t, genesis, s.best, s.db, b);
    }
  }
}
