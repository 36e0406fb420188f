/** Connecting a block has the same outcome on a live index as on the replay it lags behind;
    whole branches can therefore be disconnected and connected without losing step. */
module LedgerReplay {
  import opened Basics
  import opened BlockTree
  import opened Transactions
  import opened Ledger
  import opened LedgerUndo

  // ---------------------------------------------------------------- one transaction

  /** Inputs known to the live index look the same in the full one. */
  lemma {:induction false} SumInBelow(env: Env, live: Index, full: Index, vin: seq<OutPoint>)
    requires Below(live, full) && forall o :: o in vin ==> o.hash in live
    ensures SumIn(env, live, vin) == SumIn(env, full, vin)
  {
    if vin != [] {
      SumInBelow(env, live, full, vin[..|vin| - 1]);
      assert vin[|vin| - 1] in vin;
    }
  }

  lemma {:induction false} PrevOutsBelow(env: Env, live: Index, full: Index, vin: seq<OutPoint>)
    requires Below(live, full) && forall o :: o in vin ==> o.hash in live
    ensures PrevOuts(env, live, vin) == PrevOuts(env, full, vin)
  {
    forall i | 0 <= i < |vin| ensures PrevOut(env, live, vin[i]) == PrevOut(env, full, vin[i]) {
      assert vin[i] in vin;
    }
  }

  /** Coin age reads the database only at the inputs. */
  lemma {:induction false} CentSecondsBelow(env: Env, dbLive: Index, dbFull: Index, tx: Tx, k: nat)
    requires k <= |tx.vin| && Below(dbLive, dbFull)
    requires forall i :: 0 <= i < |tx.vin| ==> (tx.vin[i].hash in dbLive <==> tx.vin[i].hash in dbFull)
    ensures CentSeconds(env, dbLive, tx, k) == CentSeconds(env, dbFull, tx, k)
  {
    if k > 0 {
      CentSecondsBelow(env, dbLive, dbFull, tx, k - 1);
    }
  }

  /** For a transaction whose inputs the live view knows, all checks agree, provided that the
      inputs of a coinstake are in both databases or in neither. */
  lemma {:induction false} TxOkBelow(env: Env, path: seq<BlockId>, dbLive: Index, dbFull: Index, live: Index, full: Index, tx: Tx)
    requires Below(dbLive, dbFull) && Below(live, full)
    requires forall o :: o in tx.vin ==> o.hash in live
    requires tx.IsCoinStake() ==>
      forall i :: 0 <= i < |tx.vin| ==>
        InputOk(env, path, live, tx, tx.vin[i]) ==> (tx.vin[i].hash in dbLive <==> tx.vin[i].hash in dbFull)
    ensures TxOk(env, path, dbLive, live, tx) <==> TxOk(env, path, dbFull, full, tx)
  {
    SumInBelow(env, live, full, tx.vin);
    PrevOutsBelow(env, live, full, tx.vin);
    assert forall i :: 0 <= i < |tx.vin| ==> tx.vin[i] in tx.vin;
    assert forall i :: 0 <= i < |tx.vin| ==>
      (InputOk(env, path, live, tx, tx.vin[i]) <==> InputOk(env, path, full, tx, tx.vin[i]));
    if tx.IsCoinStake() && forall i :: 0 <= i < |tx.vin| ==> InputOk(env, path, live, tx, tx.vin[i]) {
      CentSecondsBelow(env, dbLive, dbFull, tx, |tx.vin|);
    }
  }

  /** Same running totals, views in step. */
  ghost predicate InStep(a: Acc, r: Acc) {
    Below(a.view, r.view) && a == r.(view := a.view)
  }

  ghost predicate InStepOption(a: Option<Acc>, r: Option<Acc>) {
    (a.Some? <==> r.Some?) && (a.Some? ==> InStep(a.value, r.value))
  }

  lemma {:induction false} BelowInsert(live: Index, full: Index, id: TxId, e: TxIndex)
    requires Below(live, full)
    ensures Below(live[id := e], full[id := e])
  {
  }

  lemma {:induction false} OverwriteBelow(live: Index, full: Index, id: TxId)
    requires Below(live, full)
    ensures MayOverwrite(live, id) <==> MayOverwrite(full, id)
  {
  }

  /** ConnectTx is determined by the outcome of its checks and of spending. */
  lemma {:induction false} ConnectTxCongruence(
    env: Env, path: seq<BlockId>, dbLive: Index, dbFull: Index, a: Acc, r: Acc, tx: Tx, pos: DiskPos)
    requires a == r.(view := a.view) && !tx.IsCoinBase()
    requires MayOverwrite(dbLive, tx.id) == MayOverwrite(dbFull, tx.id)
    requires Spend(a.view, tx.vin, pos).Some? && Spend(r.view, tx.vin, pos).Some?
    requires TxOk(env, path, dbLive, a.view, tx) == TxOk(env, path, dbFull, r.view, tx)
    requires SumIn(env, a.view, tx.vin) == SumIn(env, r.view, tx.vin)
    requires PrevOuts(env, a.view, tx.vin) == PrevOuts(env, r.view, tx.vin)
    ensures var x, y := ConnectTx(env, path, dbLive, a, tx, pos), ConnectTx(env, path, dbFull, r, tx, pos);
      && (x.Some? <==> y.Some?)
      && (x.Some? ==>
            && x.value == y.value.(view := x.value.view)
            && x.value.view == Spend(a.view, tx.vin, pos).value[tx.id := FreshEntry(pos, |tx.vout|)]
            && y.value.view == Spend(r.view, tx.vin, pos).value[tx.id := FreshEntry(pos, |tx.vout|)])
  {
  }

  lemma {:induction false} ConnectTxBelow(env: Env, path: seq<BlockId>, dbLive: Index, dbFull: Index, a: Acc, r: Acc, tx: Tx, pos: DiskPos)
    requires Below(dbLive, dbFull) && InStep(a, r)
    requires tx.IsCoinStake() ==>
      forall i :: 0 <= i < |tx.vin| ==>
        InputOk(env, path, a.view, tx, tx.vin[i]) ==> (tx.vin[i].hash in dbLive <==> tx.vin[i].hash in dbFull)
    ensures InStepOption(ConnectTx(env, path, dbLive, a, tx, pos), ConnectTx(env, path, dbFull, r, tx, pos))
  {
    var e := FreshEntry(pos, |tx.vout|);
    OverwriteBelow(dbLive, dbFull, tx.id);
    if tx.IsCoinBase() {
      BelowInsert(a.view, r.view, tx.id, e);
      return;
    }
    SpendBelow(a.view, r.view, tx.vin, pos);
    if Spend(a.view, tx.vin, pos).Some? {
      BelowInsert(Spend(a.view, tx.vin, pos).value, Spend(r.view, tx.vin, pos).value, tx.id, e);
      InputsKnown(a.view, tx.vin, pos);
      SumInBelow(env, a.view, r.view, tx.vin);
      PrevOutsBelow(env, a.view, r.view, tx.vin);
      TxOkBelow(env, path, dbLive, dbFull, a.view, r.view, tx);
      ConnectTxCongruence(env, path, dbLive, dbFull, a, r, tx, pos);
    }
  }

  lemma {:induction false} InputsKnown(v: Index, vin: seq<OutPoint>, pos: DiskPos)
    requires Spend(v, vin, pos).Some?
    ensures forall o :: o in vin ==> o.hash in v
  {
    SpendSlots(v, vin, pos);
  }

  // ---------------------------------------------------------------- one block

  /** A transaction of the block being connected counts as immature. */
  lemma {:induction false} OwnBlockImmature(path: seq<BlockId>, i: nat)
    requires path != []
    ensures Immature(path, InBlock(path[|path| - 1], i))
  {
    var k := |path| - 1;
    assert Max(0, |path| - COINBASE_MATURITY) <= k < |path| && path[k] == path[|path| - 1];
  }

  /** A coinstake cannot spend the coinbase beside it, so its inputs predate the block. */
  lemma {:induction false} StakeInputsPredateBlock(
    env: Env, path: seq<BlockId>, dbLive: Index, dbFull: Index, b: BlockId, o: OutPoint, tx: Tx, view: Index)
    requires Below(dbLive, dbFull)
    requires b in env.disk && env.disk[b].vtx != [] && env.disk[b].vtx[0].IsCoinBase()
    requires path != [] && path[|path| - 1] == b
    requires view == dbLive[env.disk[b].vtx[0].id := FreshEntry(InBlock(b, 0), |env.disk[b].vtx[0].vout|)]
    requires InputOk(env, path, view, tx, o)
    ensures o.hash in dbLive <==> o.hash in dbFull
  {
    OwnBlockImmature(path, 0);
  }

  lemma {:induction false} ConnectTxsBelow(
    env: Env, path: seq<BlockId>, dbLive: Index, dbFull: Index, b: BlockId, n: nat)
    requires Below(dbLive, dbFull)
    requires path != [] && path[|path| - 1] == b && b in env.disk
    requires CheckBlock(env, env.disk[b]) && n <= |env.disk[b].vtx|
    ensures InStepOption(
      ConnectTxs(env, path, dbLive, b, env.disk[b].vtx, n),
      ConnectTxs(env, path, dbFull, b, env.disk[b].vtx, n))
  {
    if n > 0 {
      ConnectTxsBelow(env, path, dbLive, dbFull, b, n - 1);
      var vtx := env.disk[b].vtx;
      var tx := vtx[n - 1];
      var a := ConnectTxs(env, path, dbLive, b, vtx, n - 1);
      var r := ConnectTxs(env, path, dbFull, b, vtx, n - 1);
      if a.Some? {
        if tx.IsCoinStake() {
          assert n == 2;
          assert ConnectTxs(env, path, dbLive, b, vtx, 0) == Some(Acc(dbLive, 0, 0, 0, 0));
          forall i | 0 <= i < |tx.vin| && InputOk(env, path, a.value.view, tx, tx.vin[i])
            ensures tx.vin[i].hash in dbLive <==> tx.vin[i].hash in dbFull
          {
            StakeInputsPredateBlock(env, path, dbLive, dbFull, b, tx.vin[i], tx, a.value.view);
          }
        }
        ConnectTxBelow(env, path, dbLive, dbFull, a.value, r.value, tx, InBlock(b, n - 1));
      }
    }
  }

  /** ConnectBlock accepts a block on the live index exactly when it does on the replay. */
  lemma {:induction false} ConnectBlockBelow(env: Env, path: seq<BlockId>, dbLive: Index, dbFull: Index)
    requires |path| >= 2 && Below(dbLive, dbFull)
    ensures InStepOption(ConnectBlock(env, path, dbLive), ConnectBlock(env, path, dbFull))
  {
    var b := path[|path| - 1];
    if b in env.disk && CheckBlock(env, env.disk[b]) {
      ConnectTxsBelow(env, path, dbLive, dbFull, b, |env.disk[b].vtx|);
    }
  }

  /** DisconnectBlock undoes ConnectBlock: on the connected index it always succeeds; it restores
      the exact index when no transaction of the block was indexed before, and always up to
      entries that were fully spent, so that the set of unspent outputs is restored. */
  lemma {:induction false} DisconnectBlockUndoes(env: Env, path: seq<BlockId>, db: Index, live: Index)
    requires |path| >= 2 && ConnectBlock(env, path, db).Some?
    requires Below(live, ConnectBlock(env, path, db).value.view)
    ensures var b := path[|path| - 1];
      && b in env.disk
      && (DisconnectBlock(env, b, live).Some? ==>
            && Below(DisconnectBlock(env, b, live).value, db)
            && UnspentSet(DisconnectBlock(env, b, live).value) == UnspentSet(db))
      && (live == ConnectBlock(env, path, db).value.view ==> DisconnectBlock(env, b, live).Some?)
      && (live == ConnectBlock(env, path, db).value.view && AllNew(db, env.disk[b].vtx, |env.disk[b].vtx|) ==>
            DisconnectBlock(env, b, live) == Some(db))
  {
    var b := path[|path| - 1];
    var vtx := env.disk[b].vtx;
    DisconnectTxsUndoes(env, path, db, b, vtx, |vtx|, live);
    if live == ConnectBlock(env, path, db).value.view {
      DisconnectTxsSucceeds(env, path, db, b, vtx, |vtx|, live, {});
    }
    if DisconnectBlock(env, b, live).Some? {
      BelowSameUnspent(DisconnectBlock(env, b, live).value, db);
    }
  }

  // ---------------------------------------------------------------- branches

  /** The live index is in step with the replay of `path`. */
  ghost predicate Tracks(env: Env, path: seq<BlockId>, live: Index)
    requires path != []
  {
    Replay(env, path).Some? && Below(live, Replay(env, path).value)
  }

  /** One step of a replay. */
  lemma {:induction false} ReplayStep(env: Env, path: seq<BlockId>)
    requires |path| >= 2 && Replay(env, path).Some?
    ensures var before := Replay(env, path[..|path| - 1]);
      && before.Some?
      && path[|path| - 1] in env.disk
      && ReplayLast(env, path) == ConnectBlock(env, path, before.value)
      && ConnectBlock(env, path, before.value).Some?
      && Replay(env, path).value == ConnectBlock(env, path, before.value).value.view
  {
    assert ReplayLast(env, path).Some?;
  }

  /** Connecting one more block keeps step, and fails exactly when the longer replay fails. */
  lemma {:induction false} ConnectTracks(env: Env, path: seq<BlockId>, live: Index)
    requires |path| >= 2 && Tracks(env, path[..|path| - 1], live)
    ensures ConnectBlock(env, path, live).Some? <==> Replay(env, path).Some?
    ensures ConnectBlock(env, path, live).Some? ==> Tracks(env, path, ConnectBlock(env, path, live).value.view)
  {
    ConnectBlockBelow(env, path, live, Replay(env, path[..|path| - 1]).value);
  }

  /** Disconnecting the last block steps back one block of the replay. */
  lemma {:induction false} DisconnectTracks(env: Env, path: seq<BlockId>, live: Index)
    requires |path| >= 2 && Tracks(env, path, live)
    ensures DisconnectBlock(env, path[|path| - 1], live).Some? ==>
      Tracks(env, path[..|path| - 1], DisconnectBlock(env, path[|path| - 1], live).value)
  {
    ReplayStep(env, path);
    DisconnectBlockUndoes(env, path, Replay(env, path[..|path| - 1]).value, live);
  }

  /** Prefixes of a replayable path are replayable. */
  lemma {:induction false} ReplayPrefix(env: Env, path: seq<BlockId>, k: nat)
    requires 1 <= k <= |path| && Replay(env, path).Some?
    ensures Replay(env, path[..k]).Some?
  {
    if k == |path| {
      assert path[..k] == path;
    } else {
      ReplayStep(env, path);
      ReplayPrefix(env, path[..|path| - 1], k);
      assert path[..|path| - 1][..k] == path[..k];
    }
  }

  // ---------------------------------------------------------------- exact replay

  /** No transaction id occurs twice in the blocks after genesis. */
  ghost predicate UniqueAlong(env: Env, path: seq<BlockId>) {
    forall i, j :: 0 < i < j < |path| ==> NoneRepeated(env, path[i], path[j])
  }

  /** No transaction of block `b` has the id of one of block `a`. */
  ghost predicate NoneRepeated(env: Env, a: BlockId, b: BlockId) {
    b in env.disk ==> forall n :: 0 <= n < |env.disk[b].vtx| ==> !Contains(env, a, env.disk[b].vtx[n].id)
  }

  lemma {:induction false} SpendKeepsKeys(v: Index, vin: seq<OutPoint>, pos: DiskPos)
    requires Spend(v, vin, pos).Some?
    ensures Spend(v, vin, pos).value.Keys == v.Keys
  {
    SpendSlots(v, vin, pos);
  }

  /** Connecting adds no entries but those of the block's own transactions. */
  lemma {:induction false} KeysAfterConnect(
    env: Env, path: seq<BlockId>, db: Index, b: BlockId, vtx: seq<Tx>, n: nat, id: TxId)
    requires n <= |vtx| && ConnectTxs(env, path, db, b, vtx, n).Some?
    ensures id in ConnectTxs(env, path, db, b, vtx, n).value.view <==>
              id in db || exists i :: 0 <= i < n && vtx[i].id == id
  {
    if n > 0 {
      KeysAfterConnect(env, path, db, b, vtx, n - 1, id);
      var acc := ConnectTxs(env, path, db, b, vtx, n - 1).value;
      ConnectTxView(env, path, db, acc, vtx[n - 1], InBlock(b, n - 1));
      SpendKeepsKeys(acc.view, Spends(vtx[n - 1]), InBlock(b, n - 1));
    }
  }

  /** Transaction `id` is in block `b`. */
  ghost predicate Contains(env: Env, b: BlockId, id: TxId) {
    b in env.disk && exists m :: 0 <= m < |env.disk[b].vtx| && env.disk[b].vtx[m].id == id
  }

  /** A replay indexes only transactions of the path's blocks. */
  lemma {:induction false} ReplayLacks(env: Env, path: seq<BlockId>, id: TxId)
    requires path != [] && Replay(env, path).Some?
    requires forall i :: 0 < i < |path| ==> !Contains(env, path[i], id)
    ensures id !in Replay(env, path).value
  {
    if |path| > 1 {
      var k := |path| - 1;
      ReplayStep(env, path);
      var vtx := env.disk[path[k]].vtx;
      ReplayLacks(env, path[..k], id);
      KeysAfterConnect(env, path, Replay(env, path[..k]).value, path[k], vtx, |vtx|, id);
      assert !Contains(env, path[k], id);
    }
  }

  /** With unique transaction ids, nothing in the last block was indexed before it. */
  lemma {:induction false} LastBlockIsNew(env: Env, path: seq<BlockId>, id: TxId)
    requires |path| >= 2 && Replay(env, path[..|path| - 1]).Some? && UniqueAlong(env, path)
    requires Contains(env, path[|path| - 1], id)
    ensures id !in Replay(env, path[..|path| - 1]).value
  {
    var k := |path| - 1;
    forall i | 0 < i < k ensures !Contains(env, path[..k][i], id) {
      assert path[..k][i] == path[i];
      assert NoneRepeated(env, path[i], path[k]);
    }
    ReplayLacks(env, path[..k], id);
  }

  lemma {:induction false} LastBlockIsAllNew(env: Env, path: seq<BlockId>)
    requires |path| >= 2 && Replay(env, path[..|path| - 1]).Some? && UniqueAlong(env, path)
    requires path[|path| - 1] in env.disk
    ensures var vtx := env.disk[path[|path| - 1]].vtx; AllNew(Replay(env, path[..|path| - 1]).value, vtx, |vtx|)
  {
    var b := path[|path| - 1];
    forall n | 0 <= n < |env.disk[b].vtx|
      ensures env.disk[b].vtx[n].id !in Replay(env, path[..|path| - 1]).value
    {
      assert Contains(env, b, env.disk[b].vtx[n].id);
      LastBlockIsNew(env, path, env.disk[b].vtx[n].id);
    }
  }

  /** With unique transaction ids the last block of a replay disconnects, exactly. */
  lemma {:induction false} DisconnectExact(env: Env, path: seq<BlockId>)
    requires |path| >= 2 && Replay(env, path).Some? && UniqueAlong(env, path)
    ensures DisconnectBlock(env, path[|path| - 1], Replay(env, path).value) == Replay(env, path[..|path| - 1])
  {
    ReplayStep(env, path);
    LastBlockIsAllNew(env, path);
    DisconnectBlockUndoes(env, path, Replay(env, path[..|path| - 1]).value, Replay(env, path).value);
  }
}
