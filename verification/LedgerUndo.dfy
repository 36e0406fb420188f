/** Disconnecting a block undoes connecting it, and a live index stays in step with a replay. */
module LedgerUndo {
  import opened Basics
  import opened BlockTree
  import opened Transactions
  import opened Ledger

  // ---------------------------------------------------------------- slots

  /** Same entries, same positions, same number of slots. */
  ghost predicate SameShape(v: Index, w: Index) {
    && w.Keys == v.Keys
    && forall h :: h in v ==> w[h].pos == v[h].pos && |w[h].spent| == |v[h].spent|
  }

  /** Slot by slot effect of Spend. */
  lemma {:induction false} SpendSlots(v: Index, vin: seq<OutPoint>, pos: DiskPos)
    requires Spend(v, vin, pos).Some?
    ensures var w := Spend(v, vin, pos).value;
      && SameShape(v, w)
      && (forall o :: o in vin ==>
            o.hash in v && o.n < |v[o.hash].spent| && v[o.hash].spent[o.n] == Unspent)
      && (forall h, n :: h in v && 0 <= n < |v[h].spent| ==>
            w[h].spent[n] == if OutPoint(h, n) in vin then SpentBy(pos) else v[h].spent[n])
  {
    if vin != [] {
      var k := |vin| - 1;
      SpendSlots(v, vin[..k], pos);
      assert vin == vin[..k] + [vin[k]];
    }
  }

  /** Slot by slot effect of Unspend, and when it succeeds. */
  lemma {:induction false} UnspendSlots(v: Index, vin: seq<OutPoint>)
    ensures Unspend(v, vin).Some? <==> forall o :: o in vin ==> o.hash in v && o.n < |v[o.hash].spent|
    ensures Unspend(v, vin).Some? ==>
      var w := Unspend(v, vin).value;
      && SameShape(v, w)
      && (forall h, n :: h in v && 0 <= n < |v[h].spent| ==>
            w[h].spent[n] == if OutPoint(h, n) in vin then Unspent else v[h].spent[n])
  {
    if vin != [] {
      var k := |vin| - 1;
      UnspendSlots(v, vin[..k]);
      assert vin == vin[..k] + [vin[k]];
      assert vin[k] in vin;
    }
  }

  /** Clearing what was just spent gives the index back. */
  lemma {:induction false} UnspendUndoesSpend(v: Index, vin: seq<OutPoint>, pos: DiskPos)
    requires Spend(v, vin, pos).Some?
    ensures Unspend(Spend(v, vin, pos).value, vin) == Some(v)
  {
    var w := Spend(v, vin, pos).value;
    SpendSlots(v, vin, pos);
    UnspendSlots(w, vin);
    var u := Unspend(w, vin).value;
    forall h | h in v ensures u[h] == v[h] {
      assert u[h].spent == v[h].spent;
    }
    assert u == v;
  }

  // ---------------------------------------------------------------- lagging behind a replay

  /** `live` agrees with `full` on every entry it has, and lacks only fully spent entries. */
  ghost predicate Below(live: Index, full: Index) {
    && live.Keys <= full.Keys
    && (forall h :: h in live ==> live[h] == full[h])
    && (forall h :: h in full && h !in live ==> full[h].FullySpent())
  }

  /** The outputs that can still be spent. */
  ghost function UnspentSet(v: Index): set<OutPoint> {
    set h, n | h in v && 0 <= n < |v[h].spent| && v[h].spent[n] == Unspent :: OutPoint(h, n)
  }

  /** An index below another has the same unspent outputs. */
  lemma {:induction false} BelowSameUnspent(live: Index, full: Index)
    requires Below(live, full)
    ensures UnspentSet(live) == UnspentSet(full)
  {
    forall o ensures o in UnspentSet(live) <==> o in UnspentSet(full) {
      if o in UnspentSet(live) {
        assert o.hash in full && full[o.hash].spent[o.n] == Unspent;
      }
      if o in UnspentSet(full) {
        assert o.hash in live;
      }
    }
  }

  /** Spending behaves the same on an index below a full one: it succeeds on both or neither. */
  lemma {:induction false} SpendBelow(live: Index, full: Index, vin: seq<OutPoint>, pos: DiskPos)
    requires Below(live, full)
    ensures Spend(live, vin, pos).Some? <==> Spend(full, vin, pos).Some?
    ensures Spend(live, vin, pos).Some? ==> Below(Spend(live, vin, pos).value, Spend(full, vin, pos).value)
  {
    if vin != [] {
      SpendBelow(live, full, vin[..|vin| - 1], pos);
    }
  }

  // ---------------------------------------------------------------- one transaction

  /** `id` may be (over)written: it is absent or fully spent. */
  ghost predicate Free(v: Index, id: TxId) { id in v ==> v[id].FullySpent() }

  /** The inputs a transaction spends: none for a coinbase. */
  ghost function Spends(tx: Tx): seq<OutPoint> { if tx.IsCoinBase() then [] else tx.vin }

  /** The view after a transaction: its inputs spent, its own entry fresh. */
  lemma {:induction false} ConnectTxView(env: Env, path: seq<BlockId>, db: Index, acc: Acc, tx: Tx, pos: DiskPos)
    requires ConnectTx(env, path, db, acc, tx, pos).Some?
    ensures Spend(acc.view, Spends(tx), pos).Some?
    ensures ConnectTx(env, path, db, acc, tx, pos).value.view
              == Spend(acc.view, Spends(tx), pos).value[tx.id := FreshEntry(pos, |tx.vout|)]
    ensures MayOverwrite(db, tx.id)
  {
  }

  /** A transaction spending `vin` at `pos` and written as `id` never spends its own outputs. */
  lemma {:induction false} InputsNotSelf(v: Index, vin: seq<OutPoint>, pos: DiskPos, id: TxId)
    requires Spend(v, vin, pos).Some? && Free(v, id)
    ensures forall o :: o in vin ==> o.hash != id && o.hash in v && o.n < |v[o.hash].spent|
  {
    SpendSlots(v, vin, pos);
  }

  /** Clearing the inputs in an index below the connected one gives back the old entries. */
  lemma {:induction false} RestoredEntry(v: Index, vin: seq<OutPoint>, pos: DiskPos, id: TxId, e: TxIndex, live: Index, h: TxId)
    requires Spend(v, vin, pos).Some? && Free(v, id) && Unspend(live, vin).Some?
    requires Below(live, Spend(v, vin, pos).value[id := e])
    requires h in live && h != id
    ensures h in v && h in Unspend(live, vin).value && Unspend(live, vin).value[h] == v[h]
  {
    SpendSlots(v, vin, pos);
    UnspendSlots(live, vin);
    assert live[h] == Spend(v, vin, pos).value[h];
    assert Unspend(live, vin).value[h].spent == v[h].spent;
  }

  /** What such an index still lacks afterwards was fully spent. */
  lemma {:induction false} MissingEntry(v: Index, vin: seq<OutPoint>, pos: DiskPos, id: TxId, e: TxIndex, live: Index, h: TxId)
    requires Spend(v, vin, pos).Some? && Free(v, id) && Unspend(live, vin).Some?
    requires Below(live, Spend(v, vin, pos).value[id := e])
    requires h in v && (h !in live || h == id)
    ensures v[h].FullySpent()
  {
    if h != id {
      SpendSlots(v, vin, pos);
      UnspendSlots(live, vin);
      var w := Spend(v, vin, pos).value;
      assert w[h].FullySpent();
      forall n | 0 <= n < |v[h].spent| ensures v[h].spent[n] != Unspent {
        assert OutPoint(h, n) !in vin;
      }
    }
  }

  lemma {:induction false} UndoSpending(v: Index, vin: seq<OutPoint>, pos: DiskPos, id: TxId, e: TxIndex, live: Index)
    requires Spend(v, vin, pos).Some? && Free(v, id)
    requires Below(live, Spend(v, vin, pos).value[id := e])
    ensures Unspend(live, vin).Some? ==> Below(Unspend(live, vin).value - {id}, v)
    ensures live == Spend(v, vin, pos).value[id := e] ==> Unspend(live, vin).Some?
    ensures live == Spend(v, vin, pos).value[id := e] && id !in v ==>
              Unspend(live, vin).Some? && Unspend(live, vin).value - {id} == v
  {
    if live == Spend(v, vin, pos).value[id := e] {
      SpentCanUndo(v, vin, pos, id, e);
    }
    if Unspend(live, vin).Some? {
      UndoneEntries(v, vin, pos, id, e, live);
      SpendKeys(v, vin, pos);
      UndoneIndex(v, live, Unspend(live, vin).value, id);
    }
  }

  lemma {:induction false} UndoneIndex(v: Index, live: Index, u: Index, id: TxId)
    requires u.Keys == live.Keys && forall h :: h in live && h != id ==> h in v && u[h] == v[h]
    requires forall h :: h in v && (h !in live || h == id) ==> v[h].FullySpent()
    ensures Below(u - {id}, v) && (live.Keys == v.Keys + {id} && id !in v ==> u - {id} == v)
  {
    assert live.Keys == v.Keys + {id} && id !in v ==> (u - {id}).Keys == v.Keys;
  }

  /** All marks just set can be cleared, whatever new entry was added. */
  lemma {:induction false} SpentCanUndo(v: Index, vin: seq<OutPoint>, pos: DiskPos, id: TxId, e: TxIndex)
    requires Spend(v, vin, pos).Some? && Free(v, id)
    ensures Unspend(Spend(v, vin, pos).value[id := e], vin).Some?
  {
    InputsNotSelf(v, vin, pos, id);
    SpendSlots(v, vin, pos);
    UnspendSlots(Spend(v, vin, pos).value[id := e], vin);
  }

  lemma {:induction false} SpendKeys(v: Index, vin: seq<OutPoint>, pos: DiskPos)
    requires Spend(v, vin, pos).Some?
    ensures Spend(v, vin, pos).value.Keys == v.Keys
  {
    SpendSlots(v, vin, pos);
  }

  /** What is left of an index after undoing: restored entries, short of fully spent ones. */
  lemma {:induction false} UndoneEntries(v: Index, vin: seq<OutPoint>, pos: DiskPos, id: TxId, e: TxIndex, live: Index)
    requires Spend(v, vin, pos).Some? && Free(v, id)
    requires Below(live, Spend(v, vin, pos).value[id := e]) && Unspend(live, vin).Some?
    ensures Unspend(live, vin).value.Keys == live.Keys
    ensures forall h :: h in live && h != id ==> h in v && Unspend(live, vin).value[h] == v[h]
    ensures forall h :: h in v && (h !in live || h == id) ==> v[h].FullySpent()
  {
    UnspendSlots(live, vin);
    forall h | h in live && h != id ensures h in v && Unspend(live, vin).value[h] == v[h] {
      RestoredEntry(v, vin, pos, id, e, live, h);
    }
    forall h | h in v && (h !in live || h == id) ensures v[h].FullySpent() {
      MissingEntry(v, vin, pos, id, e, live, h);
    }
  }

  /** Disconnecting a transaction from an index at or below the connected one leads back to or
      below the index before; from the connected index itself it always succeeds, and gives
      back the exact index when the transaction was not indexed before. */
  lemma {:induction false} DisconnectTxUndoes(env: Env, path: seq<BlockId>, db: Index, acc: Acc, tx: Tx, pos: DiskPos, live: Index)
    requires ConnectTx(env, path, db, acc, tx, pos).Some? && Free(acc.view, tx.id)
    requires Below(live, ConnectTx(env, path, db, acc, tx, pos).value.view)
    ensures DisconnectTx(live, tx).Some? ==> Below(DisconnectTx(live, tx).value, acc.view)
    ensures live == ConnectTx(env, path, db, acc, tx, pos).value.view ==> DisconnectTx(live, tx).Some?
    ensures live == ConnectTx(env, path, db, acc, tx, pos).value.view && tx.id !in acc.view ==>
              DisconnectTx(live, tx) == Some(acc.view)
  {
    ConnectTxView(env, path, db, acc, tx, pos);
    UndoSpending(acc.view, Spends(tx), pos, tx.id, FreshEntry(pos, |tx.vout|), live);
  }

  // ---------------------------------------------------------------- one block

  /** What is free to be written stays free until a transaction with that id is connected,
      and ids not connected yet are in the view exactly when they were in the database. */
  lemma {:induction false} FreeUntilConnected(
    env: Env, path: seq<BlockId>, db: Index, b: BlockId, vtx: seq<Tx>, n: nat, id: TxId)
    requires n <= |vtx| && ConnectTxs(env, path, db, b, vtx, n).Some?
    requires Free(db, id) && forall i :: 0 <= i < n ==> vtx[i].id != id
    ensures var v := ConnectTxs(env, path, db, b, vtx, n).value.view; Free(v, id) && (id in v <==> id in db)
  {
    if n > 0 {
      FreeUntilConnected(env, path, db, b, vtx, n - 1, id);
      var acc := ConnectTxs(env, path, db, b, vtx, n - 1).value;
      ConnectTxView(env, path, db, acc, vtx[n - 1], InBlock(b, n - 1));
      SpendSlots(acc.view, Spends(vtx[n - 1]), InBlock(b, n - 1));
    }
  }

  ghost predicate UniqueIds(vtx: seq<Tx>) {
    forall i, j :: 0 <= i < j < |vtx| ==> vtx[i].id != vtx[j].id
  }

  /** None of the first `n` transactions was indexed before the block. */
  ghost predicate AllNew(db: Index, vtx: seq<Tx>, n: nat)
    requires n <= |vtx|
  {
    forall i :: 0 <= i < n ==> vtx[i].id !in db
  }

  /** Undoing the last transaction only. */
  lemma {:induction false} UndoLast(env: Env, path: seq<BlockId>, db: Index, b: BlockId, vtx: seq<Tx>, n: nat, live: Index)
    requires 0 < n <= |vtx| && UniqueIds(vtx) && ConnectTxs(env, path, db, b, vtx, n).Some?
    requires Below(live, ConnectTxs(env, path, db, b, vtx, n).value.view)
    ensures ConnectTxs(env, path, db, b, vtx, n - 1).Some?
    ensures var v, w := ConnectTxs(env, path, db, b, vtx, n - 1).value.view, DisconnectTx(live, vtx[n - 1]);
      && (w.Some? ==> Below(w.value, v))
      && (live == ConnectTxs(env, path, db, b, vtx, n).value.view && vtx[n - 1].id !in db ==> w == Some(v))
  {
    var acc := ConnectTxs(env, path, db, b, vtx, n - 1).value;
    FreeUntilConnected(env, path, db, b, vtx, n - 1, vtx[n - 1].id);
    DisconnectTxUndoes(env, path, db, acc, vtx[n - 1], InBlock(b, n - 1), live);
  }

  lemma {:induction false} DisconnectTxsUndoes(
    env: Env, path: seq<BlockId>, db: Index, b: BlockId, vtx: seq<Tx>, n: nat, live: Index)
    requires n <= |vtx| && UniqueIds(vtx)
    requires ConnectTxs(env, path, db, b, vtx, n).Some?
    requires Below(live, ConnectTxs(env, path, db, b, vtx, n).value.view)
    ensures DisconnectTxs(live, vtx, n).Some? ==> Below(DisconnectTxs(live, vtx, n).value, db)
    ensures live == ConnectTxs(env, path, db, b, vtx, n).value.view && AllNew(db, vtx, n) ==>
              DisconnectTxs(live, vtx, n) == Some(db)
    decreases n
  {
    if n > 0 {
      var tx := vtx[n - 1];
      UndoLast(env, path, db, b, vtx, n, live);
      if DisconnectTx(live, tx).Some? {
        DisconnectTxsUndoes(env, path, db, b, vtx, n - 1, DisconnectTx(live, tx).value);
      }
    }
  }

  /** `live` has every entry of `v` but perhaps those in `gone`. */
  ghost predicate Keeps(live: Index, v: Index, gone: set<TxId>) {
    forall h :: h in v && h !in gone ==> h in live && |live[h].spent| == |v[h].spent|
  }

  lemma {:induction false} DisconnectTxSucceeds(env: Env, path: seq<BlockId>, db: Index, acc: Acc, tx: Tx, pos: DiskPos, live: Index, gone: set<TxId>)
    requires ConnectTx(env, path, db, acc, tx, pos).Some?
    requires Keeps(live, ConnectTx(env, path, db, acc, tx, pos).value.view, gone)
    requires tx.id !in gone && forall id :: id in gone || id == tx.id ==> Free(acc.view, id)
    ensures DisconnectTx(live, tx).Some? && Keeps(DisconnectTx(live, tx).value, acc.view, gone + {tx.id})
  {
    ConnectTxView(env, path, db, acc, tx, pos);
    SpendSlots(acc.view, Spends(tx), pos);
    var w := Spend(acc.view, Spends(tx), pos).value;
    forall o | o in Spends(tx) ensures o.hash in live && o.n < |live[o.hash].spent| {
      assert !Free(acc.view, o.hash);
      assert o.hash in w && |w[o.hash].spent| == |acc.view[o.hash].spent|;
    }
    UnspendSlots(live, Spends(tx));
    forall h | h in acc.view && h !in gone && h != tx.id
      ensures h in live && |live[h].spent| == |acc.view[h].spent|
    {
      assert h in w;
    }
  }

  /** Disconnecting a block right after connecting it never fails: what its transactions replaced
      was fully spent before the block, so no transaction of the block spends from it. */
  lemma {:induction false} DisconnectTxsSucceeds(
    env: Env, path: seq<BlockId>, db: Index, b: BlockId, vtx: seq<Tx>, n: nat, live: Index, gone: set<TxId>)
    requires n <= |vtx| && UniqueIds(vtx) && ConnectTxs(env, path, db, b, vtx, n).Some?
    requires Keeps(live, ConnectTxs(env, path, db, b, vtx, n).value.view, gone)
    requires forall id :: id in gone ==> Free(db, id) && forall i :: 0 <= i < n ==> vtx[i].id != id
    ensures DisconnectTxs(live, vtx, n).Some?
    decreases n
  {
    if n > 0 {
      var acc := ConnectTxs(env, path, db, b, vtx, n - 1).value;
      var tx := vtx[n - 1];
      ConnectTxView(env, path, db, acc, tx, InBlock(b, n - 1));
      forall id | id in gone || id == tx.id ensures Free(acc.view, id) {
        FreeUntilConnected(env, path, db, b, vtx, n - 1, id);
      }
      DisconnectTxSucceeds(env, path, db, acc, tx, InBlock(b, n - 1), live, gone);
      DisconnectTxsSucceeds(env, path, db, b, vtx, n - 1, DisconnectTx(live, tx).value, gone + {tx.id});
    }
  }

  /** The first n transactions spend only outputs of transactions in `ids`. */
  ghost predicate SpendsFrom(vtx: seq<Tx>, n: nat, ids: set<TxId>)
    requires n <= |vtx|
  {
    forall m :: 0 <= m < n ==> TxSpendsFrom(vtx[m], ids)
  }

  ghost predicate TxSpendsFrom(tx: Tx, ids: set<TxId>) {
    forall o :: o in Spends(tx) ==> o.hash in ids
  }

  /** When a transaction disconnects from an index at or below the connected one. */
  lemma {:induction false} DisconnectTxIff(env: Env, path: seq<BlockId>, db: Index, acc: Acc, tx: Tx, pos: DiskPos, live: Index)
    requires ConnectTx(env, path, db, acc, tx, pos).Some? && Free(acc.view, tx.id)
    requires Below(live, ConnectTx(env, path, db, acc, tx, pos).value.view)
    ensures DisconnectTx(live, tx).Some? <==> TxSpendsFrom(tx, live.Keys)
    ensures DisconnectTx(live, tx).Some? ==> DisconnectTx(live, tx).value.Keys == live.Keys - {tx.id}
  {
    ConnectTxView(env, path, db, acc, tx, pos);
    SpendSlots(acc.view, Spends(tx), pos);
    InputsNotSelf(acc.view, Spends(tx), pos, tx.id);
    UnspendSlots(live, Spends(tx));
  }

  /** A transaction of the block does not spend from a later one, nor from what that one replaces. */
  lemma {:induction false} NotFromLater(env: Env, path: seq<BlockId>, db: Index, b: BlockId, vtx: seq<Tx>, n: nat, m: nat)
    requires m < n < |vtx| && UniqueIds(vtx) && ConnectTxs(env, path, db, b, vtx, n + 1).Some?
    ensures forall o :: o in Spends(vtx[m]) ==> o.hash != vtx[n].id
  {
    ConnectsEarlier(env, path, db, b, vtx, n + 1, n);
    ConnectsEarlier(env, path, db, b, vtx, n + 1, m + 1);
    ConnectsEarlier(env, path, db, b, vtx, n + 1, m);
    var acc := ConnectTxs(env, path, db, b, vtx, m).value;
    ConnectTxView(env, path, db, ConnectTxs(env, path, db, b, vtx, n).value, vtx[n], InBlock(b, n));
    FreeUntilConnected(env, path, db, b, vtx, m, vtx[n].id);
    ConnectTxView(env, path, db, acc, vtx[m], InBlock(b, m));
    InputsNotSelf(acc.view, Spends(vtx[m]), InBlock(b, m), vtx[n].id);
  }

  lemma {:induction false} ConnectsEarlier(env: Env, path: seq<BlockId>, db: Index, b: BlockId, vtx: seq<Tx>, n: nat, m: nat)
    requires m <= n <= |vtx| && ConnectTxs(env, path, db, b, vtx, n).Some?
    ensures ConnectTxs(env, path, db, b, vtx, m).Some?
    decreases n
  {
    if m < n {
      ConnectsEarlier(env, path, db, b, vtx, n - 1, m);
    }
  }

  ghost function IdsUpTo(vtx: seq<Tx>, n: nat): set<TxId>
    requires n <= |vtx|
  {
    set i | 0 <= i < n :: vtx[i].id
  }

  /** A block disconnects from an index at or below the connected one exactly when every
      transaction that its transactions spend from is indexed. */
  lemma {:induction false} DisconnectTxsIff(
    env: Env, path: seq<BlockId>, db: Index, b: BlockId, vtx: seq<Tx>, n: nat, live: Index)
    requires n <= |vtx| && UniqueIds(vtx) && ConnectTxs(env, path, db, b, vtx, n).Some?
    requires Below(live, ConnectTxs(env, path, db, b, vtx, n).value.view)
    ensures DisconnectsIff(live, vtx, n)
    decreases n
  {
    if n > 0 {
      var w := DisconnectTx(live, vtx[n - 1]);
      UndoLast(env, path, db, b, vtx, n, live);
      LastUndone(env, path, db, b, vtx, n, live);
      SpendsFromLast(env, path, db, b, vtx, n - 1, live.Keys);
      if w.Some? {
        DisconnectTxsIff(env, path, db, b, vtx, n - 1, w.value);
      }
      DisconnectsNext(vtx, n, live, w);
    } else {
      assert IdsUpTo(vtx, 0) == {};
    }
  }

  ghost predicate DisconnectsIff(live: Index, vtx: seq<Tx>, n: nat)
    requires n <= |vtx|
  {
    && (DisconnectTxs(live, vtx, n).Some? <==> SpendsFrom(vtx, n, live.Keys))
    && (DisconnectTxs(live, vtx, n).Some? ==> DisconnectTxs(live, vtx, n).value.Keys == live.Keys - IdsUpTo(vtx, n))
  }

  lemma {:induction false} DisconnectsNext(vtx: seq<Tx>, n: nat, live: Index, w: Option<Index>)
    requires 0 < n <= |vtx| && w == DisconnectTx(live, vtx[n - 1])
    requires w.Some? <==> TxSpendsFrom(vtx[n - 1], live.Keys)
    requires w.Some? ==> w.value.Keys == live.Keys - {vtx[n - 1].id} && DisconnectsIff(w.value, vtx, n - 1)
    requires SpendsFrom(vtx, n, live.Keys) <==>
      TxSpendsFrom(vtx[n - 1], live.Keys) && SpendsFrom(vtx, n - 1, live.Keys - {vtx[n - 1].id})
    ensures DisconnectsIff(live, vtx, n)
  {
    IdsUpToNext(vtx, n - 1);
  }

  /** When the last transaction can be undone, and which ids that removes. */
  lemma {:induction false} LastUndone(env: Env, path: seq<BlockId>, db: Index, b: BlockId, vtx: seq<Tx>, n: nat, live: Index)
    requires 0 < n <= |vtx| && UniqueIds(vtx) && ConnectTxs(env, path, db, b, vtx, n).Some?
    requires Below(live, ConnectTxs(env, path, db, b, vtx, n).value.view)
    ensures var w := DisconnectTx(live, vtx[n - 1]);
      && (w.Some? <==> TxSpendsFrom(vtx[n - 1], live.Keys))
      && (w.Some? ==> w.value.Keys == live.Keys - {vtx[n - 1].id})
  {
    var acc := ConnectTxs(env, path, db, b, vtx, n - 1).value;
    FreeUntilConnected(env, path, db, b, vtx, n - 1, vtx[n - 1].id);
    DisconnectTxIff(env, path, db, acc, vtx[n - 1], InBlock(b, n - 1), live);
  }

  /** Undoing it takes away nothing that an earlier one spends. */
  lemma {:induction false} SpendsFromLast(env: Env, path: seq<BlockId>, db: Index, b: BlockId, vtx: seq<Tx>, n: nat, ids: set<TxId>)
    requires n < |vtx| && UniqueIds(vtx) && ConnectTxs(env, path, db, b, vtx, n + 1).Some?
    ensures SpendsFrom(vtx, n + 1, ids) <==> TxSpendsFrom(vtx[n], ids) && SpendsFrom(vtx, n, ids - {vtx[n].id})
  {
    forall m | 0 <= m < n ensures TxSpendsFrom(vtx[m], ids) <==> TxSpendsFrom(vtx[m], ids - {vtx[n].id}) {
      NotFromLater(env, path, db, b, vtx, n, m);
    }
  }

  lemma {:induction false} IdsUpToNext(vtx: seq<Tx>, n: nat)
    requires n < |vtx|
    ensures IdsUpTo(vtx, n + 1) == IdsUpTo(vtx, n) + {vtx[n].id}
  {
  }
}
