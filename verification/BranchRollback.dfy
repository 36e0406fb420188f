/** Disconnecting a branch, the first half of Reorganize (main.cpp): where it leads, and exactly when
    it succeeds. */
module BranchRollback {
  import opened Basics
  import opened BlockTree
  import opened Transactions
  import opened Ledger
  import opened LedgerUndo
  import opened LedgerReplay

  /** The index is exactly, not just up to fully spent entries, the replay of `tip`'s chain. */
  ghost predicate ExactAt(env: Env, tree: Tree, genesis: BlockId, tip: BlockId, db: Index)
    requires WellFormed(tree, genesis) && tip in tree
  {
    Replay(env, Path(tree, genesis, tip)) == Some(db)
  }

  // ---------------------------------------------------------------- rolling back a branch

  /** Disconnects the blocks of `path` beyond its first `k`, last block first. */
  ghost function Rollback(env: Env, path: seq<BlockId>, k: nat, live: Index): Option<Index>
    requires 1 <= k <= |path|
    decreases |path|
  {
    if |path| == k then Some(live)
    else
      var w := DisconnectBlock(env, path[|path| - 1], live);
      if w.None? then None else Rollback(env, path[..|path| - 1], k, w.value)
  }

  /** A rollback that succeeds ends in step with the replay of the shorter path. */
  lemma {:induction false} RollbackTracks(env: Env, path: seq<BlockId>, k: nat, live: Index)
    requires 1 <= k <= |path| && Tracks(env, path, live)
    ensures Rollback(env, path, k, live).Some? ==> Tracks(env, path[..k], Rollback(env, path, k, live).value)
    decreases |path|
  {
    if |path| == k {
      assert path[..k] == path;
    } else {
      DisconnectTracks(env, path, live);
      var w := DisconnectBlock(env, path[|path| - 1], live);
      if w.Some? {
        RollbackTracks(env, path[..|path| - 1], k, w.value);
        assert path[..|path| - 1][..k] == path[..k];
      }
    }
  }

  /** When no transaction id repeats along the branch, rolling back an exact index succeeds and
      is exact. */
  lemma {:induction false} RollbackExact(env: Env, path: seq<BlockId>, k: nat)
    requires 1 <= k <= |path| && Replay(env, path).Some? && UniqueAlong(env, path)
    ensures Rollback(env, path, k, Replay(env, path).value) == Replay(env, path[..k])
    decreases |path|
  {
    if |path| == k {
      assert path[..k] == path;
    } else {
      ReplayStep(env, path);
      DisconnectExact(env, path);
      UniqueOnPrefix(env, path, |path| - 1);
      RollbackExact(env, path[..|path| - 1], k);
      assert path[..|path| - 1][..k] == path[..k];
    }
  }

  lemma {:induction false} UniqueOnPrefix(env: Env, path: seq<BlockId>, k: nat)
    requires k <= |path| && UniqueAlong(env, path)
    ensures UniqueAlong(env, path[..k])
  {
    var q := path[..k];
    forall i, j | 0 < i < j < |q| ensures NoneRepeated(env, q[i], q[j]) {
      assert q[i] == path[i] && q[j] == path[j];
    }
  }

  lemma {:induction false} ExactRollback(env: Env, path: seq<BlockId>, k: nat, db: Index)
    requires 1 <= k <= |path|
    ensures Replay(env, path) == Some(db) && UniqueAlong(env, path) ==> Rollback(env, path, k, db) == Replay(env, path[..k])
  {
    if Replay(env, path) == Some(db) && UniqueAlong(env, path) {
      RollbackExact(env, path, k);
    }
  }

  lemma {:induction false} ReplayFailsBeyond(env: Env, path: seq<BlockId>, k: nat)
    requires 1 <= k <= |path| && Replay(env, path[..k]).None?
    ensures Replay(env, path).None?
  {
    if Replay(env, path).Some? {
      ReplayPrefix(env, path, k);
    }
  }

  lemma {:induction false} ExactLast(env: Env, q: seq<BlockId>, db: Index)
    requires |q| >= 2 && ConnectBlock(env, q, db).Some? && Replay(env, q[..|q| - 1]) == Some(db)
    ensures Replay(env, q) == Some(ConnectBlock(env, q, db).value.view)
  {
  }

  // ---------------------------------------------------------------- when a rollback succeeds

  /** No transaction of block `a` spends from an id that block `b` uses again. */
  ghost predicate NotReused(env: Env, a: BlockId, b: BlockId) {
    a in env.disk ==> forall m :: 0 <= m < |env.disk[a].vtx| ==> NoneContains(env, b, env.disk[a].vtx[m])
  }

  ghost predicate NoneContains(env: Env, b: BlockId, tx: Tx) {
    forall o :: o in Spends(tx) ==> !Contains(env, b, o.hash)
  }

  /** Block j of the path can be undone: what its transactions spend from is indexed, and no later
      block uses those ids again. */
  ghost predicate BlockUndoable(env: Env, path: seq<BlockId>, ids: set<TxId>, j: nat)
    requires j < |path|
  {
    && path[j] in env.disk && SpendsFrom(env.disk[path[j]].vtx, |env.disk[path[j]].vtx|, ids)
    && forall i :: j < i < |path| ==> NotReused(env, path[j], path[i])
  }

  ghost predicate Undoable(env: Env, path: seq<BlockId>, k: nat, ids: set<TxId>) {
    forall j :: k <= j < |path| ==> BlockUndoable(env, path, ids, j)
  }

  lemma {:induction false} LastDisconnects(env: Env, path: seq<BlockId>, db: Index)
    requires |path| >= 2 && Tracks(env, path, db)
    ensures var b := path[|path| - 1];
      && b in env.disk
      && (DisconnectBlock(env, b, db).Some? <==> SpendsFrom(env.disk[b].vtx, |env.disk[b].vtx|, db.Keys))
      && (DisconnectBlock(env, b, db).Some? ==>
            DisconnectBlock(env, b, db).value.Keys == db.Keys - IdsUpTo(env.disk[b].vtx, |env.disk[b].vtx|))
  {
    var b := path[|path| - 1];
    ReplayStep(env, path);
    var full := Replay(env, path[..|path| - 1]).value;
    DisconnectTxsIff(env, path, full, b, env.disk[b].vtx, |env.disk[b].vtx|, db);
  }

  /** Undoing block j with the last block's ids gone. */
  lemma {:induction false} UndoableWithout(env: Env, path: seq<BlockId>, ids: set<TxId>, j: nat)
    requires |path| >= 2 && j < |path| - 1 && path[|path| - 1] in env.disk
    ensures var vtx := env.disk[path[|path| - 1]].vtx;
      BlockUndoable(env, path[..|path| - 1], ids - IdsUpTo(vtx, |vtx|), j) <==> BlockUndoable(env, path, ids, j)
  {
    var last := path[|path| - 1];
    var vtx := env.disk[last].vtx;
    var q, rest := path[..|path| - 1], ids - IdsUpTo(vtx, |vtx|);
    forall id ensures id in IdsUpTo(vtx, |vtx|) <==> Contains(env, last, id) { }
    if path[j] in env.disk {
      var txs := env.disk[path[j]].vtx;
      forall m | 0 <= m < |txs|
        ensures TxSpendsFrom(txs[m], rest) <==> TxSpendsFrom(txs[m], ids) && NoneContains(env, last, txs[m])
      { }
      SplitSpends(env, path[j], last, ids, rest);
    }
    forall i | j < i < |q| ensures NotReused(env, q[j], q[i]) == NotReused(env, path[j], path[i]) { }
  }

  lemma {:induction false} SplitSpends(env: Env, a: BlockId, b: BlockId, ids: set<TxId>, rest: set<TxId>)
    requires a in env.disk
    requires forall m :: 0 <= m < |env.disk[a].vtx| ==>
      (TxSpendsFrom(env.disk[a].vtx[m], rest) <==> TxSpendsFrom(env.disk[a].vtx[m], ids) && NoneContains(env, b, env.disk[a].vtx[m]))
    ensures var txs := env.disk[a].vtx; SpendsFrom(txs, |txs|, rest) <==> SpendsFrom(txs, |txs|, ids) && NotReused(env, a, b)
  {
    var txs := env.disk[a].vtx;
    if SpendsFrom(txs, |txs|, rest) {
      forall m | 0 <= m < |txs| ensures TxSpendsFrom(txs[m], ids) && NoneContains(env, b, txs[m]) {
        assert TxSpendsFrom(txs[m], rest);
      }
    }
    if SpendsFrom(txs, |txs|, ids) && NotReused(env, a, b) {
      forall m | 0 <= m < |txs| ensures TxSpendsFrom(txs[m], rest) {
        assert TxSpendsFrom(txs[m], ids) && NoneContains(env, b, txs[m]);
      }
    }
  }

  /** A rollback succeeds exactly when every block of the branch can be undone: it fails only when
      an entry that it must unspend is missing, or is erased with a later block of the branch that
      uses the same transaction id. */
  lemma {:induction false} RollbackIff(env: Env, path: seq<BlockId>, k: nat, db: Index)
    requires 1 <= k <= |path| && Tracks(env, path, db)
    ensures Rollback(env, path, k, db).Some? <==> Undoable(env, path, k, db.Keys)
    decreases |path|
  {
    if |path| > k {
      var last, q := path[|path| - 1], path[..|path| - 1];
      var w := DisconnectBlock(env, last, db);
      LastDisconnects(env, path, db);
      var rest := db.Keys - IdsUpTo(env.disk[last].vtx, |env.disk[last].vtx|);
      forall j | k <= j < |q| ensures BlockUndoable(env, q, rest, j) <==> BlockUndoable(env, path, db.Keys, j) {
        UndoableWithout(env, path, db.Keys, j);
      }
      UndoableSplit(env, path, k, db.Keys, rest);
      if w.Some? {
        DisconnectTracks(env, path, db);
        RollbackIff(env, q, k, w.value);
      }
    }
  }

  lemma {:induction false} UndoableSplit(env: Env, path: seq<BlockId>, k: nat, ids: set<TxId>, rest: set<TxId>)
    requires 1 <= k < |path|
    requires forall j :: k <= j < |path| - 1 ==> (BlockUndoable(env, path[..|path| - 1], rest, j) <==> BlockUndoable(env, path, ids, j))
    ensures Undoable(env, path, k, ids) <==>
      Undoable(env, path[..|path| - 1], k, rest) && BlockUndoable(env, path, ids, |path| - 1)
  {
    var q := path[..|path| - 1];
    if Undoable(env, path, k, ids) {
      forall j | k <= j < |q| ensures BlockUndoable(env, q, rest, j) {
        assert BlockUndoable(env, path, ids, j);
      }
    }
    if Undoable(env, q, k, rest) && BlockUndoable(env, path, ids, |path| - 1) {
      forall j | k <= j < |path| ensures BlockUndoable(env, path, ids, j) {
        assert j < |q| ==> BlockUndoable(env, q, rest, j);
      }
    }
  }

  /** On an exact index a rollback fails only because of reused ids. */
  lemma {:induction false} ExactRollbackIff(env: Env, path: seq<BlockId>, k: nat)
    requires 1 <= k <= |path| && Replay(env, path).Some?
    ensures Rollback(env, path, k, Replay(env, path).value).Some? <==>
      forall i, j :: k <= j < i < |path| ==> NotReused(env, path[j], path[i])
  {
    var db := Replay(env, path).value;
    RollbackIff(env, path, k, db);
    forall j | k <= j < |path|
      ensures BlockUndoable(env, path, db.Keys, j) <==> forall i :: j < i < |path| ==> NotReused(env, path[j], path[i])
    {
      InputsIndexed(env, path, j);
    }
    if forall i, j :: k <= j < i < |path| ==> NotReused(env, path[j], path[i]) {
      forall j | k <= j < |path| ensures BlockUndoable(env, path, db.Keys, j) { }
    }
  }

  /** A replay has an entry for everything its transactions spend from. */
  lemma {:induction false} InputsIndexed(env: Env, path: seq<BlockId>, j: nat)
    requires 1 <= j < |path| && Replay(env, path).Some?
    ensures path[j] in env.disk
    ensures SpendsFrom(env.disk[path[j]].vtx, |env.disk[path[j]].vtx|, Replay(env, path).value.Keys)
    decreases |path|
  {
    if j < |path| - 1 {
      var q := path[..|path| - 1];
      ReplayGrows(env, path);
      InputsIndexed(env, q, j);
      assert q[j] == path[j];
      SpendsFromMore(env.disk[path[j]].vtx, Replay(env, q).value.Keys, Replay(env, path).value.Keys);
    } else {
      LastInputsIndexed(env, path);
    }
  }

  lemma {:induction false} SpendsFromMore(vtx: seq<Tx>, ids: set<TxId>, more: set<TxId>)
    requires SpendsFrom(vtx, |vtx|, ids) && ids <= more
    ensures SpendsFrom(vtx, |vtx|, more)
  {
    forall m | 0 <= m < |vtx| ensures TxSpendsFrom(vtx[m], more) {
      assert TxSpendsFrom(vtx[m], ids);
    }
  }

  lemma {:induction false} ReplayGrows(env: Env, path: seq<BlockId>)
    requires |path| >= 2 && Replay(env, path).Some?
    ensures Replay(env, path[..|path| - 1]).Some? && Replay(env, path[..|path| - 1]).value.Keys <= Replay(env, path).value.Keys
  {
    ReplayStep(env, path);
    var b := path[|path| - 1];
    var before := Replay(env, path[..|path| - 1]).value;
    forall id | id in before ensures id in Replay(env, path).value {
      KeysAfterConnect(env, path, before, b, env.disk[b].vtx, |env.disk[b].vtx|, id);
    }
  }

  lemma {:induction false} LastInputsIndexed(env: Env, path: seq<BlockId>)
    requires |path| >= 2 && Replay(env, path).Some?
    ensures path[|path| - 1] in env.disk
    ensures var vtx := env.disk[path[|path| - 1]].vtx; SpendsFrom(vtx, |vtx|, Replay(env, path).value.Keys)
  {
    ReplayStep(env, path);
    var b := path[|path| - 1];
    var vtx := env.disk[b].vtx;
    forall m | 0 <= m < |vtx| ensures TxSpendsFrom(vtx[m], Replay(env, path).value.Keys) {
      InputsInView(env, path, Replay(env, path[..|path| - 1]).value, b, vtx, m);
    }
  }

  lemma {:induction false} InputsInView(env: Env, path: seq<BlockId>, db: Index, b: BlockId, vtx: seq<Tx>, m: nat)
    requires m < |vtx| && ConnectTxs(env, path, db, b, vtx, |vtx|).Some?
    ensures TxSpendsFrom(vtx[m], ConnectTxs(env, path, db, b, vtx, |vtx|).value.view.Keys)
  {
    ConnectsEarlier(env, path, db, b, vtx, |vtx|, m + 1);
    ConnectsEarlier(env, path, db, b, vtx, |vtx|, m);
    var acc := ConnectTxs(env, path, db, b, vtx, m).value;
    ConnectTxView(env, path, db, acc, vtx[m], InBlock(b, m));
    SpendSlots(acc.view, Spends(vtx[m]), InBlock(b, m));
    forall o | o in Spends(vtx[m]) ensures o.hash in ConnectTxs(env, path, db, b, vtx, |vtx|).value.view {
      KeysStay(env, path, db, b, vtx, m, o.hash);
    }
  }

  lemma {:induction false} KeysStay(env: Env, path: seq<BlockId>, db: Index, b: BlockId, vtx: seq<Tx>, m: nat, id: TxId)
    requires m <= |vtx| && ConnectTxs(env, path, db, b, vtx, |vtx|).Some? && ConnectTxs(env, path, db, b, vtx, m).Some?
    requires id in ConnectTxs(env, path, db, b, vtx, m).value.view
    ensures id in ConnectTxs(env, path, db, b, vtx, |vtx|).value.view
  {
    KeysAfterConnect(env, path, db, b, vtx, m, id);
    KeysAfterConnect(env, path, db, b, vtx, |vtx|, id);
  }
}
