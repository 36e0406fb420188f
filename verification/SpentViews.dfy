/** What the view of the index means that connecting transactions one after another threads: where the
    entry of a transaction is from, and which of its slots are still unspent, said of the index before
    and of the list of transactions. */
module SpentViews {
  import opened Basics
  import opened BlockTree
  import opened Transactions
  import opened Ledger
  import opened LedgerUndo

  /** Transactions to be connected in turn to an index: those of a block on disk, or of the memory pool. */
  datatype Listing = Listing(db: Index, vtx: seq<Tx>, block: Option<BlockId>)

  /** The position that the entry of transaction m gets. */
  function PlaceOf(l: Listing, m: nat): DiskPos {
    if l.block.Some? then InBlock(l.block.value, m) else InMemoryPool
  }

  /** The one of the first n transactions that has the id. */
  ghost function Earlier(vtx: seq<Tx>, n: nat, h: TxId): (m: Option<nat>)
    requires n <= |vtx|
    ensures m.Some? ==> m.value < n && vtx[m.value].id == h
    ensures m.None? ==> forall k :: 0 <= k < n ==> vtx[k].id != h
  {
    if n == 0 then None else if vtx[n - 1].id == h then Some(n - 1) else Earlier(vtx, n - 1, h)
  }

  /** Where the transaction is that an input of transaction n refers to: earlier in the block or indexed. */
  ghost function SourceAt(l: Listing, n: nat, h: TxId): Option<DiskPos>
    requires n <= |l.vtx|
  {
    var m := Earlier(l.vtx, n, h);
    if m.Some? then Some(PlaceOf(l, m.value))
    else if h in l.db then Some(l.db[h].pos) else None
  }

  /** The output exists and was not spent before this block. */
  ghost predicate Open(l: Listing, n: nat, o: OutPoint)
    requires n <= |l.vtx|
  {
    var m := Earlier(l.vtx, n, o.hash);
    if m.Some? then o.n < |l.vtx[m.value].vout|
    else o.hash in l.db && o.n < |l.db[o.hash].spent| && l.db[o.hash].spent[o.n] == Unspent
  }

  ghost predicate Uses(tx: Tx, o: OutPoint) { !tx.IsCoinBase() && o in tx.vin }

  /** One of the first n transactions spends the output. */
  ghost predicate UsedBefore(vtx: seq<Tx>, n: nat, o: OutPoint)
    requires n <= |vtx|
  {
    exists m :: 0 <= m < n && Uses(vtx[m], o)
  }

  // ---------------------------------------------------------------- what the view means

  /** What the entry for `h` in the view before transaction n says. */
  ghost predicate EntryMeans(l: Listing, n: nat, v: Index, h: TxId)
    requires n <= |l.vtx|
  {
    && (h in v <==> SourceAt(l, n, h).Some?)
    && (h in v ==>
          && v[h].pos == SourceAt(l, n, h).value
          && forall k: nat :: SlotMeans(l, n, v[h], OutPoint(h, k)))
  }

  ghost predicate SlotMeans(l: Listing, n: nat, e: TxIndex, o: OutPoint)
    requires n <= |l.vtx|
  {
    && (var m := Earlier(l.vtx, n, o.hash);
        if m.Some? then |e.spent| == |l.vtx[m.value].vout| else o.hash in l.db && |e.spent| == |l.db[o.hash].spent|)
    && (o.n < |e.spent| && e.spent[o.n] == Unspent <==> Open(l, n, o) && !UsedBefore(l.vtx, n, o))
  }

  ghost predicate ViewMeans(l: Listing, n: nat, v: Index)
    requires n <= |l.vtx|
  {
    && (forall h :: EntryMeans(l, n, v, h))
    && (forall o :: UsedBefore(l.vtx, n, o) ==> Open(l, n, o))
  }

  lemma {:induction false} ViewAtStart(l: Listing)
    ensures ViewMeans(l, 0, l.db)
  {
    forall h ensures EntryMeans(l, 0, l.db, h) {
      forall k: nat | h in l.db ensures SlotMeans(l, 0, l.db[h], OutPoint(h, k)) { }
    }
  }

  lemma {:induction false} UsedNext(vtx: seq<Tx>, n: nat, o: OutPoint)
    requires n < |vtx|
    ensures UsedBefore(vtx, n + 1, o) <==> UsedBefore(vtx, n, o) || Uses(vtx[n], o)
  {
  }

  /** What an unspent slot of the view is. */
  lemma {:induction false} UnspentIsOpen(l: Listing, n: nat, v: Index, o: OutPoint)
    requires n <= |l.vtx| && ViewMeans(l, n, v)
    ensures SourceAt(l, n, o.hash).Some? && Open(l, n, o) && !UsedBefore(l.vtx, n, o) <==>
      o.hash in v && o.n < |v[o.hash].spent| && v[o.hash].spent[o.n] == Unspent
  {
    assert EntryMeans(l, n, v, o.hash);
    if o.hash in v {
      assert SlotMeans(l, n, v[o.hash], OutPoint(o.hash, o.n));
    }
  }

  /** Nothing that transaction n replaces or is about to write has been spent from in this block. */
  lemma {:induction false} NotFromSelf(l: Listing, n: nat, v: Index, o: OutPoint, pos: DiskPos)
    requires n < |l.vtx| && ViewMeans(l, n, v) && UniqueIds(l.vtx)
    requires Free(l.db, l.vtx[n].id) && Spend(v, Spends(l.vtx[n]), pos).Some? && o.hash == l.vtx[n].id
    ensures !UsedBefore(l.vtx, n + 1, o)
  {
    UsedNext(l.vtx, n, o);
    SpendSlots(v, Spends(l.vtx[n]), pos);
    UnspentIsOpen(l, n, v, o);
  }

  lemma {:induction false} EntryNext(l: Listing, n: nat, v: Index, w: Index, pos: DiskPos, h: TxId)
    requires n < |l.vtx| && EntryMeans(l, n, v, h) && h != l.vtx[n].id
    requires Spend(v, Spends(l.vtx[n]), pos) == Some(w)
    ensures EntryMeans(l, n + 1, w, h)
  {
    SpendSlots(v, Spends(l.vtx[n]), pos);
    forall k: nat | h in w ensures SlotMeans(l, n + 1, w[h], OutPoint(h, k)) {
      assert SlotMeans(l, n, v[h], OutPoint(h, k));
      UsedNext(l.vtx, n, OutPoint(h, k));
    }
  }

  /** Connecting transaction n takes the view from what the first n mean to what the first n + 1 mean. */
  lemma {:induction false} ViewNext(l: Listing, n: nat, v: Index, w: Index, pos: DiskPos)
    requires n < |l.vtx| && ViewMeans(l, n, v) && UniqueIds(l.vtx)
    requires pos == PlaceOf(l, n) && Free(l.db, l.vtx[n].id)
    requires Spend(v, Spends(l.vtx[n]), pos) == Some(w)
    ensures ViewMeans(l, n + 1, w[l.vtx[n].id := FreshEntry(pos, |l.vtx[n].vout|)])
  {
    var tx, next := l.vtx[n], n + 1;
    var u := w[tx.id := FreshEntry(pos, |tx.vout|)];
    forall h ensures EntryMeans(l, next, u, h) {
      if h == tx.id {
        forall k: nat ensures SlotMeans(l, next, u[h], OutPoint(h, k)) {
          NotFromSelf(l, n, v, OutPoint(h, k), pos);
        }
      } else {
        EntryNext(l, n, v, w, pos, h);
        forall k: nat | h in w ensures SlotMeans(l, next, u[h], OutPoint(h, k)) {
          assert SlotMeans(l, next, w[h], OutPoint(h, k));
        }
      }
    }
    forall o | UsedBefore(l.vtx, next, o) ensures Open(l, next, o) {
      UsedNext(l.vtx, n, o);
      SpendSlots(v, Spends(tx), pos);
      UnspentIsOpen(l, n, v, o);
      if o.hash == tx.id {
        NotFromSelf(l, n, v, o, pos);
      }
    }
  }

  // ---------------------------------------------------------------- checks on the view are the rules

  ghost predicate UnspentIn(v: Index, o: OutPoint) {
    o.hash in v && o.n < |v[o.hash].spent| && v[o.hash].spent[o.n] == Unspent
  }

  /** Every slot is there, unspent, and named once. */
  ghost predicate Spendable(v: Index, vin: seq<OutPoint>, k: nat)
    requires k <= |vin|
  {
    forall i :: 0 <= i < k ==> UnspentIn(v, vin[i]) && vin[i] !in vin[..i]
  }

  lemma {:induction false} SpendIff(v: Index, vin: seq<OutPoint>, pos: DiskPos)
    ensures Spend(v, vin, pos).Some? <==> Spendable(v, vin, |vin|)
  {
    if vin != [] {
      var k := |vin| - 1;
      SpendIff(v, vin[..k], pos);
      SpendablePrefix(v, vin, k);
      if Spend(v, vin[..k], pos).Some? {
        NextSlot(v, vin[..k], pos, vin[k]);
      }
    }
  }

  lemma {:induction false} SpendablePrefix(v: Index, vin: seq<OutPoint>, k: nat)
    requires k <= |vin|
    ensures Spendable(v, vin[..k], k) <==> Spendable(v, vin, k)
  {
    assert forall i :: 0 <= i < k ==> vin[..k][..i] == vin[..i];
  }

  /** The next slot is unspent after the ones before are spent exactly if it was and is not among them. */
  lemma {:induction false} NextSlot(v: Index, vin: seq<OutPoint>, pos: DiskPos, o: OutPoint)
    requires Spend(v, vin, pos).Some?
    ensures UnspentIn(Spend(v, vin, pos).value, o) <==> UnspentIn(v, o) && o !in vin
  {
    SpendSlots(v, vin, pos);
  }
}
