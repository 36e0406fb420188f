/** Conservation of money: the supply recorded for a block is the value of all unspent outputs,
    and a block can raise it only by its reward. */
module LedgerMoney {
  import opened Basics
  import opened BlockTree
  import opened Transactions
  import opened Ledger
  import opened LedgerUndo
  import opened LedgerReplay

  ghost function SumValues(env: Env, v: Index, s: set<OutPoint>): int {
    if s == {} then 0 else var o :| o in s; ValueOf(env, v, o) + SumValues(env, v, s - {o})
  }

  /** The value of all unspent outputs. */
  ghost function Supply(env: Env, v: Index): int {
    SumValues(env, v, UnspentSet(v))
  }

  // ---------------------------------------------------------------- sums over sets

  lemma {:induction false} SumExtract(env: Env, v: Index, s: set<OutPoint>, x: OutPoint)
    requires x in s
    ensures SumValues(env, v, s) == ValueOf(env, v, x) + SumValues(env, v, s - {x})
    decreases s
  {
    var o :| o in s && SumValues(env, v, s) == ValueOf(env, v, o) + SumValues(env, v, s - {o});
    if o != x {
      SumExtract(env, v, s - {o}, x);
      SumExtract(env, v, s - {x}, o);
      assert s - {o} - {x} == s - {x} - {o};
    }
  }

  lemma {:induction false} SumCongruence(env: Env, v: Index, w: Index, s: set<OutPoint>)
    requires forall o :: o in s ==> ValueOf(env, v, o) == ValueOf(env, w, o)
    ensures SumValues(env, v, s) == SumValues(env, w, s)
    decreases s
  {
    if s != {} {
      var o :| o in s;
      SumExtract(env, v, s, o);
      SumExtract(env, w, s, o);
      SumCongruence(env, v, w, s - {o});
    }
  }

  lemma {:induction false} SumUnion(env: Env, v: Index, s: set<OutPoint>, t: set<OutPoint>)
    requires s !! t
    ensures SumValues(env, v, s + t) == SumValues(env, v, s) + SumValues(env, v, t)
    decreases t
  {
    if t == {} {
      assert s + t == s;
    } else {
      var o :| o in t;
      SumExtract(env, v, s + t, o);
      SumExtract(env, v, t, o);
      assert s + t - {o} == s + (t - {o});
      SumUnion(env, v, s, t - {o});
    }
  }

  // ---------------------------------------------------------------- spending and creating

  lemma {:induction false} SameShapeValue(env: Env, v: Index, w: Index, o: OutPoint)
    requires SameShape(v, w)
    ensures ValueOf(env, v, o) == ValueOf(env, w, o)
  {
  }

  /** Spending one slot takes its output out of the unspent set. */
  lemma {:induction false} UnspentAfterOne(v: Index, o: OutPoint, pos: DiskPos)
    requires o.hash in v && o.n < |v[o.hash].spent| && v[o.hash].spent[o.n] == Unspent
    ensures var w := v[o.hash := v[o.hash].(spent := v[o.hash].spent[o.n := SpentBy(pos)])];
      SameShape(v, w) && o in UnspentSet(v) && UnspentSet(w) == UnspentSet(v) - {o}
  {
    var w := v[o.hash := v[o.hash].(spent := v[o.hash].spent[o.n := SpentBy(pos)])];
    forall x ensures x in UnspentSet(w) <==> x in UnspentSet(v) - {o} {
      assert x in UnspentSet(w) <==> x.hash in w && x.n < |w[x.hash].spent| && w[x.hash].spent[x.n] == Unspent;
      assert x in UnspentSet(v) <==> x.hash in v && x.n < |v[x.hash].spent| && v[x.hash].spent[x.n] == Unspent;
    }
  }

  lemma {:induction false} SupplyAfterOne(env: Env, v: Index, o: OutPoint, pos: DiskPos)
    requires o.hash in v && o.n < |v[o.hash].spent| && v[o.hash].spent[o.n] == Unspent
    ensures Supply(env, v[o.hash := v[o.hash].(spent := v[o.hash].spent[o.n := SpentBy(pos)])])
              == Supply(env, v) - ValueOf(env, v, o)
  {
    var w := v[o.hash := v[o.hash].(spent := v[o.hash].spent[o.n := SpentBy(pos)])];
    UnspentAfterOne(v, o, pos);
    SumExtract(env, v, UnspentSet(v), o);
    forall x | x in UnspentSet(w) ensures ValueOf(env, v, x) == ValueOf(env, w, x) {
      SameShapeValue(env, v, w, x);
    }
    SumCongruence(env, v, w, UnspentSet(w));
  }

  lemma {:induction false} SupplyAfterSpend(env: Env, v: Index, vin: seq<OutPoint>, pos: DiskPos)
    requires Spend(v, vin, pos).Some?
    ensures Supply(env, Spend(v, vin, pos).value) == Supply(env, v) - SumIn(env, v, vin)
  {
    if vin != [] {
      var k := |vin| - 1;
      SupplyAfterSpend(env, v, vin[..k], pos);
      var w := Spend(v, vin[..k], pos).value;
      SpendSlots(v, vin[..k], pos);
      SameShapeValue(env, v, w, vin[k]);
      SupplyAfterOne(env, w, vin[k], pos);
    }
  }

  ghost function Outputs(id: TxId, n: nat): set<OutPoint> {
    set k | 0 <= k < n :: OutPoint(id, k)
  }

  lemma {:induction false} SumOfOutputs(env: Env, v: Index, tx: Tx, n: nat)
    requires n <= |tx.vout| && tx.id in v && ReadTx(env, v[tx.id].pos) == Some(tx)
    requires |v[tx.id].spent| == |tx.vout|
    ensures SumValues(env, v, Outputs(tx.id, n)) == SumOut(tx.vout[..n])
  {
    if n == 0 {
      assert Outputs(tx.id, 0) == {};
    } else {
      SumOfOutputs(env, v, tx, n - 1);
      var o := OutPoint(tx.id, n - 1);
      SumExtract(env, v, Outputs(tx.id, n), o);
      assert Outputs(tx.id, n) - {o} == Outputs(tx.id, n - 1);
      assert tx.vout[..n][..n - 1] == tx.vout[..n - 1];
    }
  }

  lemma {:induction false} UnspentAfterFresh(v: Index, id: TxId, pos: DiskPos, n: nat)
    requires Free(v, id)
    ensures UnspentSet(v[id := FreshEntry(pos, n)]) == UnspentSet(v) + Outputs(id, n)
    ensures UnspentSet(v) !! Outputs(id, n)
  {
    var w := v[id := FreshEntry(pos, n)];
    forall x ensures x in UnspentSet(w) <==> x in UnspentSet(v) + Outputs(id, n) {
      assert x in UnspentSet(w) <==> x.hash in w && x.n < |w[x.hash].spent| && w[x.hash].spent[x.n] == Unspent;
      assert x in UnspentSet(v) <==> x.hash in v && x.n < |v[x.hash].spent| && v[x.hash].spent[x.n] == Unspent;
      assert x in Outputs(id, n) <==> x.hash == id && x.n < n;
    }
    forall x | x in UnspentSet(v) ensures x !in Outputs(id, n) { }
  }

  /** Writing the entry of a new transaction adds the value of its outputs. */
  lemma {:induction false} SupplyAfterFresh(env: Env, v: Index, tx: Tx, pos: DiskPos)
    requires Free(v, tx.id) && ReadTx(env, pos) == Some(tx)
    ensures Supply(env, v[tx.id := FreshEntry(pos, |tx.vout|)]) == Supply(env, v) + SumOut(tx.vout)
  {
    var w := v[tx.id := FreshEntry(pos, |tx.vout|)];
    UnspentAfterFresh(v, tx.id, pos, |tx.vout|);
    SumUnion(env, w, UnspentSet(v), Outputs(tx.id, |tx.vout|));
    SumOfOutputs(env, w, tx, |tx.vout|);
    assert tx.vout[..|tx.vout|] == tx.vout;
    forall x | x in UnspentSet(v) ensures ValueOf(env, v, x) == ValueOf(env, w, x) {
      assert x.hash != tx.id;
    }
    SumCongruence(env, v, w, UnspentSet(v));
  }

  // ---------------------------------------------------------------- a block

  lemma {:induction false} SupplyAfterTx(env: Env, path: seq<BlockId>, db: Index, acc: Acc, tx: Tx, pos: DiskPos)
    requires ConnectTx(env, path, db, acc, tx, pos).Some? && Free(acc.view, tx.id) && ReadTx(env, pos) == Some(tx)
    ensures var r := ConnectTx(env, path, db, acc, tx, pos).value;
      Supply(env, r.view) - (r.valueOut - r.valueIn) == Supply(env, acc.view) - (acc.valueOut - acc.valueIn)
  {
    if tx.IsCoinBase() {
      SupplyAfterFresh(env, acc.view, tx, pos);
    } else {
      var w := Spend(acc.view, tx.vin, pos).value;
      SupplyAfterSpend(env, acc.view, tx.vin, pos);
      SpendKeepsFree(acc.view, tx.vin, pos, tx.id);
      SupplyAfterFresh(env, w, tx, pos);
    }
  }

  lemma {:induction false} SpendKeepsFree(v: Index, vin: seq<OutPoint>, pos: DiskPos, id: TxId)
    requires Spend(v, vin, pos).Some? && Free(v, id)
    ensures Free(Spend(v, vin, pos).value, id)
  {
    SpendSlots(v, vin, pos);
  }

  /** Over the transactions of a block the supply moves by the value the block creates less
      the value it consumes: what ConnectBlock adds to nMoneySupply. */
  lemma {:induction false} SupplyAfterTxs(env: Env, path: seq<BlockId>, db: Index, b: BlockId, n: nat)
    requires b in env.disk && n <= |env.disk[b].vtx| && UniqueIds(env.disk[b].vtx)
    requires ConnectTxs(env, path, db, b, env.disk[b].vtx, n).Some?
    ensures var r := ConnectTxs(env, path, db, b, env.disk[b].vtx, n).value;
      Supply(env, r.view) == Supply(env, db) + r.valueOut - r.valueIn
  {
    if n > 0 {
      var vtx := env.disk[b].vtx;
      var before := ConnectTxs(env, path, db, b, vtx, n - 1);
      ConnectTxsStep(env, path, db, b, vtx, n);
      SupplyAfterTxs(env, path, db, b, n - 1);
      FreeUntilConnected(env, path, db, b, vtx, n - 1, vtx[n - 1].id);
      SupplyAfterTx(env, path, db, before.value, vtx[n - 1], InBlock(b, n - 1));
    }
  }

  /** nMoneySupply of a connected block is the value of all unspent outputs, if its parent's was. */
  lemma {:induction false} SupplyAfterBlock(env: Env, path: seq<BlockId>, db: Index)
    requires |path| >= 2 && ConnectBlock(env, path, db).Some?
    ensures var r := ConnectBlock(env, path, db).value;
      Supply(env, r.view) == Supply(env, db) + r.valueOut - r.valueIn
  {
    var b := path[|path| - 1];
    SupplyAfterTxs(env, path, db, b, |env.disk[b].vtx|);
  }

  /** A live index below a replay carries the same supply. */
  lemma {:induction false} SupplyBelow(env: Env, live: Index, full: Index)
    requires Below(live, full)
    ensures Supply(env, live) == Supply(env, full)
  {
    BelowSameUnspent(live, full);
    forall o | o in UnspentSet(live) ensures ValueOf(env, live, o) == ValueOf(env, full, o) {
      assert o.hash in live;
    }
    SumCongruence(env, live, full, UnspentSet(live));
  }

  // ---------------------------------------------------------------- how much a block may create

  /** In a proof-of-work block, creation is the coinbase less the fees, and fees are not negative. */
  lemma {:induction false} WorkTotals(env: Env, path: seq<BlockId>, db: Index, b: BlockId, blk: Block, n: nat)
    requires CheckBlock(env, blk) && !blk.IsProofOfStake() && 1 <= n <= |blk.vtx|
    requires ConnectTxs(env, path, db, b, blk.vtx, n).Some?
    ensures var r := ConnectTxs(env, path, db, b, blk.vtx, n).value;
      r.fees >= 0 && r.valueOut - r.valueIn == SumOut(blk.vtx[0].vout) - r.fees
  {
    if n == 1 {
      assert ConnectTxs(env, path, db, b, blk.vtx, 0) == Some(Acc(db, 0, 0, 0, 0));
    } else {
      WorkTotals(env, path, db, b, blk, n - 1);
      assert !blk.vtx[n - 1].IsCoinBase() && !blk.vtx[n - 1].IsCoinStake();
    }
  }

  /** A proof-of-work block raises the supply by at most the subsidy (the premine at height 1). */
  lemma {:induction false} WorkBlockCreation(env: Env, path: seq<BlockId>, db: Index)
    requires |path| >= 2 && ConnectBlock(env, path, db).Some?
    requires !env.disk[path[|path| - 1]].IsProofOfStake()
    ensures Supply(env, ConnectBlock(env, path, db).value.view)
              <= Supply(env, db) + if |path| == 2 then PREMINE else SUBSIDY
  {
    var b := path[|path| - 1];
    SupplyAfterBlock(env, path, db);
    WorkTotals(env, path, db, b, env.disk[b], |env.disk[b].vtx|);
  }

  /** In a proof-of-stake block after the last hardened checkpoint, creation is bounded by the
      stake reward: the coinbase is empty, other transactions destroy their fees. */
  lemma {:induction false} StakeTotals(env: Env, path: seq<BlockId>, db: Index, b: BlockId, blk: Block, n: nat)
    requires CheckBlock(env, blk) && blk.IsProofOfStake() && 2 <= n <= |blk.vtx|
    requires blk.vtx[1].time > LAST_CHECKPOINT_TIME
    requires ConnectTxs(env, path, db, b, blk.vtx, n).Some?
    ensures CoinAge(env, db, blk.vtx[1]).Some?
    ensures var r := ConnectTxs(env, path, db, b, blk.vtx, n).value;
      r.valueOut - r.valueIn <= ProofOfStakeReward(CoinAge(env, db, blk.vtx[1]).value)
  {
    if n == 2 {
      var cb, cs := blk.vtx[0], blk.vtx[1];
      assert ConnectTxs(env, path, db, b, blk.vtx, 0) == Some(Acc(db, 0, 0, 0, 0));
      assert SumOut(cb.vout) == 0 by { assert SumOut(cb.vout[..0]) == 0; }
      CoinStakeMinFee(cs);
    } else {
      StakeTotals(env, path, db, b, blk, n - 1);
      assert !blk.vtx[n - 1].IsCoinBase() && !blk.vtx[n - 1].IsCoinStake();
    }
  }

  lemma {:induction false} StakeBlockCreation(env: Env, path: seq<BlockId>, db: Index)
    requires |path| >= 2 && ConnectBlock(env, path, db).Some?
    requires env.disk[path[|path| - 1]].IsProofOfStake()
    requires env.disk[path[|path| - 1]].time > LAST_CHECKPOINT_TIME
    ensures var age := CoinAge(env, db, env.disk[path[|path| - 1]].vtx[1]);
      && age.Some?
      && Supply(env, ConnectBlock(env, path, db).value.view) <= Supply(env, db) + ProofOfStakeReward(age.value)
  {
    var b := path[|path| - 1];
    SupplyAfterBlock(env, path, db);
    StakeTotals(env, path, db, b, env.disk[b], |env.disk[b].vtx|);
  }

  // ---------------------------------------------------------------- the whole chain

  /** nMoneySupply of the last block of a path, as ConnectBlock accumulates it from genesis. */
  ghost function MoneySupply(env: Env, path: seq<BlockId>): int
    requires path != [] && Replay(env, path).Some?
  {
    if |path| == 1 then 0
    else
      ReplayStep(env, path);
      var r := ReplayLast(env, path).value;
      MoneySupply(env, path[..|path| - 1]) + r.valueOut - r.valueIn
  }

  /** The accumulated supply is the value of the unspent outputs of the replayed index. */
  lemma {:induction false} MoneySupplyIsUnspentValue(env: Env, path: seq<BlockId>)
    requires path != [] && Replay(env, path).Some?
    ensures MoneySupply(env, path) == Supply(env, Replay(env, path).value)
  {
    if |path| == 1 {
      assert UnspentSet(map[]) == {};
    } else {
      ReplayStep(env, path);
      MoneySupplyIsUnspentValue(env, path[..|path| - 1]);
      SupplyAfterBlock(env, path, Replay(env, path[..|path| - 1]).value);
    }
  }

  // ---------------------------------------------------------------- what the values mean

  /** Every entry points at the transaction with that id on disk and has one slot per output,
      so that the values summed above are those of real outputs. */
  ghost predicate Grounded(env: Env, v: Index) {
    forall h :: h in v ==>
      var t := ReadTx(env, v[h].pos); t.Some? && t.value.id == h && |v[h].spent| == |t.value.vout|
  }

  lemma {:induction false} ConnectKeepsGrounded(env: Env, path: seq<BlockId>, db: Index, b: BlockId, n: nat)
    requires Grounded(env, db) && b in env.disk && n <= |env.disk[b].vtx|
    requires ConnectTxs(env, path, db, b, env.disk[b].vtx, n).Some?
    ensures Grounded(env, ConnectTxs(env, path, db, b, env.disk[b].vtx, n).value.view)
  {
    if n > 0 {
      ConnectKeepsGrounded(env, path, db, b, n - 1);
      var vtx := env.disk[b].vtx;
      var acc := ConnectTxs(env, path, db, b, vtx, n - 1).value;
      ConnectTxView(env, path, db, acc, vtx[n - 1], InBlock(b, n - 1));
      GroundedAfterTx(env, acc.view, Spends(vtx[n - 1]), InBlock(b, n - 1), vtx[n - 1]);
    }
  }

  lemma {:induction false} GroundedAfterTx(env: Env, v: Index, vin: seq<OutPoint>, pos: DiskPos, tx: Tx)
    requires Grounded(env, v) && Spend(v, vin, pos).Some? && ReadTx(env, pos) == Some(tx)
    ensures Grounded(env, Spend(v, vin, pos).value[tx.id := FreshEntry(pos, |tx.vout|)])
  {
    SpendSlots(v, vin, pos);
  }

  lemma {:induction false} ReplayGrounded(env: Env, path: seq<BlockId>)
    requires path != [] && Replay(env, path).Some?
    ensures Grounded(env, Replay(env, path).value)
  {
    if |path| > 1 {
      ReplayStep(env, path);
      ReplayGrounded(env, path[..|path| - 1]);
      var b := path[|path| - 1];
      ConnectKeepsGrounded(env, path, Replay(env, path[..|path| - 1]).value, b, |env.disk[b].vtx|);
    }
  }
}
