/** An assembled block keeps its limits, spends nothing twice, and connects: ConnectBlock finds the
    inputs, signature operations and fees that block assembly counted. */
module MinerConnects {
  import opened Basics
  import opened BlockTree
  import opened Transactions
  import opened Ledger
  import opened Miner

  // ---------------------------------------------------------------- limits

  function TotalSize(vtx: seq<Tx>): nat {
    if vtx == [] then 0 else TotalSize(vtx[..|vtx| - 1]) + vtx[|vtx| - 1].size
  }

  ghost predicate InLimits(j: Job, w: Work) {
    w.size < j.maxSize && w.sigOps < MAX_BLOCK_SIGOPS
  }

  lemma {:induction false} LimitsNext(j: Job, w: Work, tx: Tx)
    requires Fits(j, w, tx)
    ensures InLimits(j, Added(j, w, tx)) && Added(j, w, tx).vtx == w.vtx + [tx] && Added(j, w, tx).size == w.size + tx.size
  {
  }

  lemma {:induction false} BuiltStep(j: Job, vtx: seq<Tx>, tx: Tx)
    requires Built(j, vtx + [tx]).Some?
    ensures Built(j, vtx).Some? && Fits(j, Built(j, vtx).value, tx)
    ensures Built(j, vtx + [tx]).value == Added(j, Built(j, vtx).value, tx)
  {
    assert (vtx + [tx])[..|vtx|] == vtx;
  }

  /** 1000 plus the sizes stays below the size limit, and 100 plus the signature operations below
      theirs, whenever anything is added. */
  lemma {:induction false} WithinLimits(j: Job, vtx: seq<Tx>)
    requires Built(j, vtx).Some?
    ensures Built(j, vtx).value.vtx == vtx && Built(j, vtx).value.size == 1000 + TotalSize(vtx)
    ensures vtx != [] ==> InLimits(j, Built(j, vtx).value)
  {
    if vtx != [] {
      var k := |vtx| - 1;
      assert vtx == vtx[..k] + [vtx[k]];
      BuiltStep(j, vtx[..k], vtx[k]);
      WithinLimits(j, vtx[..k]);
      LimitsNext(j, Built(j, vtx[..k]).value, vtx[k]);
    }
  }

  // ---------------------------------------------------------------- no output is spent twice

  /** Spending marks every input, keeps what was marked, and could mark each input only once. */
  lemma {:induction false} SpendMarks(v: Index, vin: seq<OutPoint>, pos: DiskPos)
    requires Spend(v, vin, pos).Some?
    ensures MarksInputs(v, vin, Spend(v, vin, pos).value)
  {
    if vin != [] {
      var n := |vin| - 1;
      var w, u := Spend(v, vin[..n], pos).value, Spend(v, vin, pos).value;
      SpendMarks(v, vin[..n], pos);
      assert vin == vin[..n] + [vin[n]];
      SpendOneMarks(w, vin[n], pos);
      forall i | 0 <= i < n ensures SpentIn(u, vin[i]) && !SpentIn(v, vin[i]) && vin[i] != vin[n] {
        assert SpentIn(w, vin[..n][i]) && !SpentIn(v, vin[..n][i]);
      }
    }
  }

  ghost predicate MarksInputs(v: Index, vin: seq<OutPoint>, w: Index) {
    && (forall i :: 0 <= i < |vin| ==> SpentIn(w, vin[i]) && !SpentIn(v, vin[i]))
    && (forall o :: SpentIn(v, o) ==> SpentIn(w, o))
    && w.Keys == v.Keys
    && (forall i, k :: 0 <= i < k < |vin| ==> vin[i] != vin[k])
  }

  lemma {:induction false} SpendOneMarks(w: Index, o: OutPoint, pos: DiskPos)
    requires o.hash in w && o.n < |w[o.hash].spent| && w[o.hash].spent[o.n] == Unspent
    ensures !SpentIn(w, o) && SpentIn(Marked1(w, o, pos), o) && Marked1(w, o, pos).Keys == w.Keys
    ensures forall p :: SpentIn(w, p) ==> SpentIn(Marked1(w, o, pos), p)
  {
  }

  /** No transaction of the pool is indexed already, as mempool acceptance demands. */
  ghost predicate Unindexed(j: Job) {
    forall id :: id in j.pool ==> id !in j.db
  }

  /** All inputs of the first n transactions are marked in the view, which has no entry for later ones. */
  ghost predicate Marked(j: Job, vtx: seq<Tx>, v: Index) {
    && (forall k, i :: 0 <= k < |vtx| && 0 <= i < |vtx[k].vin| ==> SpentIn(v, vtx[k].vin[i]))
    && (forall o :: SpentIn(j.db, o) ==> SpentIn(v, o))
    && (forall id :: id in v <==> id in j.db || id in IdsOf(vtx))
  }

  lemma {:induction false} MarkedNext(j: Job, w: Work, tx: Tx)
    requires Marked(j, w.vtx, w.view) && Connects(j, w.view, tx) && tx.id !in w.view
    ensures Marked(j, w.vtx + [tx], Added(j, w, tx).view)
    ensures forall i :: 0 <= i < |tx.vin| ==> !SpentIn(w.view, tx.vin[i])
  {
    SpendMarks(w.view, tx.vin, InMemoryPool);
    var spent := Spend(w.view, tx.vin, InMemoryPool).value;
    var v := Added(j, w, tx).view;
    forall o | SpentIn(spent, o) ensures SpentIn(v, o) { }
    var next := w.vtx + [tx];
    forall k, i | 0 <= k < |next| && 0 <= i < |next[k].vin| ensures SpentIn(v, next[k].vin[i]) {
      if k < |w.vtx| {
        assert SpentIn(w.view, w.vtx[k].vin[i]);
      }
    }
    forall id ensures id in v <==> id in j.db || id in IdsOf(next) {
      if id in IdsOf(w.vtx) {
        var k :| 0 <= k < |w.vtx| && w.vtx[k].id == id;
        assert next[k].id == id;
      }
      assert next[|w.vtx|] == tx;
    }
  }

  predicate InputAt(vtx: seq<Tx>, k: int, i: int) { 0 <= k < |vtx| && 0 <= i < |vtx[k].vin| }

  /** Different inputs of the block spend different outputs. */
  ghost predicate SpendsOnce(vtx: seq<Tx>) {
    forall k, i, l, m :: InputAt(vtx, k, i) && InputAt(vtx, l, m) && vtx[k].vin[i] == vtx[l].vin[m] ==> k == l && i == m
  }

  lemma {:induction false} OnceNext(vtx: seq<Tx>, tx: Tx, v: Index)
    requires SpendsOnce(vtx) && forall k, i :: 0 <= k < |vtx| && 0 <= i < |vtx[k].vin| ==> SpentIn(v, vtx[k].vin[i])
    requires forall i :: 0 <= i < |tx.vin| ==> !SpentIn(v, tx.vin[i])
    requires forall i, k :: 0 <= i < k < |tx.vin| ==> tx.vin[i] != tx.vin[k]
    ensures SpendsOnce(vtx + [tx])
  {
    var next := vtx + [tx];
    forall k, i | InputAt(next, k, i) && k < |vtx| ensures InputAt(vtx, k, i) && SpentIn(v, next[k].vin[i]) {
      assert next[k] == vtx[k];
    }
  }

  /** No output is spent twice, and none that the index has as spent. */
  ghost predicate CleanSpends(j: Job, vtx: seq<Tx>) {
    SpendsOnce(vtx) && forall k, i :: 0 <= k < |vtx| && 0 <= i < |vtx[k].vin| ==> !SpentIn(j.db, vtx[k].vin[i])
  }

  lemma {:induction false} CleanNext(j: Job, w: Work, tx: Tx)
    requires Marked(j, w.vtx, w.view) && CleanSpends(j, w.vtx) && Connects(j, w.view, tx) && tx.id !in w.view
    ensures Marked(j, w.vtx + [tx], Added(j, w, tx).view) && CleanSpends(j, w.vtx + [tx])
  {
    MarkedNext(j, w, tx);
    SpendMarks(w.view, tx.vin, InMemoryPool);
    OnceNext(w.vtx, tx, w.view);
    var next := w.vtx + [tx];
    forall k, i | 0 <= k < |next| && 0 <= i < |next[k].vin| ensures !SpentIn(j.db, next[k].vin[i]) {
      assert k < |w.vtx| ==> next[k] == w.vtx[k];
    }
  }

  /** Across the whole block no output is spent twice, and none that the index has as spent. */
  lemma {:induction false} NoDoubleSpend(j: Job, vtx: seq<Tx>)
    requires Built(j, vtx).Some? && Scheduled(j, vtx) && Unindexed(j)
    ensures Built(j, vtx).value.vtx == vtx && Marked(j, vtx, Built(j, vtx).value.view) && CleanSpends(j, vtx)
  {
    WithinLimits(j, vtx);
    if vtx != [] {
      var n := |vtx| - 1;
      var tx := vtx[n];
      assert vtx == vtx[..n] + [tx];
      ScheduledPrefix(j, vtx);
      BuiltStep(j, vtx[..n], tx);
      NoDoubleSpend(j, vtx[..n]);
      var w := Built(j, vtx[..n]).value;
      assert PlacedOk(j, vtx, n);
      assert tx.id !in w.view;
      CleanNext(j, w, tx);
    } else {
      assert IdsOf([]) == {};
    }
  }

  lemma {:induction false} ScheduledPrefix(j: Job, vtx: seq<Tx>)
    requires Scheduled(j, vtx) && vtx != []
    ensures Scheduled(j, vtx[..|vtx| - 1]) && vtx[|vtx| - 1].id !in IdsOf(vtx[..|vtx| - 1])
  {
    var n := |vtx| - 1;
    forall k | 0 <= k < n ensures PlacedOk(j, vtx[..n], k) {
      assert PlacedOk(j, vtx, k);
      assert vtx[..n][..k] == vtx[..k];
    }
  }

  // ---------------------------------------------------------------- the block connects

  /** The node once block `b` is on disk: nothing else differs, and the index does not know `b`. */
  ghost predicate Published(j: Job, env: Env, b: BlockId, blk: Block) {
    && b !in j.env.disk && env == j.env.(disk := j.env.disk[b := blk])
    && (forall id :: id in j.db && j.db[id].pos.InBlock? ==> j.db[id].pos.block != b)
  }

  ghost predicate SameSlots(e: TxIndex, f: TxIndex) {
    |e.spent| == |f.spent| && forall n :: 0 <= n < |e.spent| ==> (e.spent[n] == Unspent <==> f.spent[n] == Unspent)
  }

  /** Where assembly has an entry, connecting has one for the same transaction with the same
      outputs unspent; entries of the pool are not coinbases, and the others are not in `b`. */
  ghost predicate MirrorsAt(j: Job, env: Env, b: BlockId, v: Index, u: Index, id: TxId)
    requires id in v
  {
    && id in u && SameSlots(v[id], u[id]) && ReadTx(env, u[id].pos) == Lookup(j, v, id)
    && (v[id].pos.InBlock? ==> u[id].pos == v[id].pos && v[id].pos.block != b)
    && (v[id].pos.InMemoryPool? ==> id in j.pool && Eligible(j, j.pool[id]))
  }

  ghost predicate Mirrors(j: Job, env: Env, b: BlockId, v: Index, u: Index) {
    forall id :: id in v ==> MirrorsAt(j, env, b, v, u, id)
  }

  lemma {:induction false} SameOutput(j: Job, env: Env, b: BlockId, v: Index, u: Index, o: OutPoint)
    requires Mirrors(j, env, b, v, u) && Lookup(j, v, o.hash).Some?
    ensures o.hash in u && PrevTx(env, u, o) == Lookup(j, v, o.hash) && PrevOut(env, u, o) == Output(j, v, o)
  {
    assert MirrorsAt(j, env, b, v, u, o.hash);
  }

  /** An input assembly accepts is one connecting accepts, one block further up. */
  lemma {:induction false} SameInput(j: Job, env: Env, b: BlockId, v: Index, u: Index, tx: Tx, o: OutPoint)
    requires Mirrors(j, env, b, v, u) && MinerInputOk(j, v, tx, o)
    ensures InputOk(env, j.path + [b], u, tx, o) && PrevOut(env, u, o) == Output(j, v, o)
  {
    SameOutput(j, env, b, v, u, o);
    assert MirrorsAt(j, env, b, v, u, o.hash);
    var path := j.path + [b];
    if v[o.hash].pos.InBlock? && Immature(path, u[o.hash].pos) {
      var k :| Max(0, |path| - COINBASE_MATURITY) <= k < |path| && path[k] == u[o.hash].pos.block;
      assert j.path[k] == path[k];
    }
  }

  lemma {:induction false} SameValueIn(j: Job, env: Env, v: Index, u: Index, vin: seq<OutPoint>)
    requires forall i :: 0 <= i < |vin| ==> PrevOut(env, u, vin[i]) == Output(j, v, vin[i])
    ensures SumIn(env, u, vin) == ValueIn(j, v, vin)
  {
    if vin != [] {
      SameValueIn(j, env, v, u, vin[..|vin| - 1]);
    }
  }

  lemma {:induction false} SameTx(j: Job, env: Env, b: BlockId, blk: Block, v: Index, u: Index, tx: Tx)
    requires Published(j, env, b, blk) && Mirrors(j, env, b, v, u) && Connects(j, v, tx) && !tx.IsCoinStake()
    ensures TxOk(env, j.path + [b], j.db, u, tx)
    ensures SumIn(env, u, tx.vin) == ValueIn(j, v, tx.vin) && PrevOuts(env, u, tx.vin) == Outputs(j, v, tx.vin)
  {
    forall i | 0 <= i < |tx.vin|
      ensures InputOk(env, j.path + [b], u, tx, tx.vin[i]) && PrevOut(env, u, tx.vin[i]) == Output(j, v, tx.vin[i])
    {
      SameInput(j, env, b, v, u, tx, tx.vin[i]);
    }
    SameValueIn(j, env, v, u, tx.vin);
    assert PrevOuts(env, u, tx.vin) == Outputs(j, v, tx.vin);
  }

  /** Spending succeeds on both sides alike. */
  lemma {:induction false} SameSpend(j: Job, env: Env, b: BlockId, v: Index, u: Index, vin: seq<OutPoint>, pos: DiskPos)
    requires Mirrors(j, env, b, v, u) && Spend(v, vin, InMemoryPool).Some?
    ensures Spend(u, vin, pos).Some?
    ensures Mirrors(j, env, b, Spend(v, vin, InMemoryPool).value, Spend(u, vin, pos).value)
  {
    if vin != [] {
      var k := |vin| - 1;
      SameSpend(j, env, b, v, u, vin[..k], pos);
      SpendOne(j, env, b, Spend(v, vin[..k], InMemoryPool).value, Spend(u, vin[..k], pos).value, vin[k], pos);
    }
  }

  function Marked1(v: Index, o: OutPoint, pos: DiskPos): Index
    requires o.hash in v && o.n < |v[o.hash].spent|
  {
    v[o.hash := v[o.hash].(spent := v[o.hash].spent[o.n := SpentBy(pos)])]
  }

  lemma {:induction false} SpendOne(j: Job, env: Env, b: BlockId, v: Index, u: Index, o: OutPoint, pos: DiskPos)
    requires Mirrors(j, env, b, v, u)
    requires o.hash in v && o.n < |v[o.hash].spent| && v[o.hash].spent[o.n] == Unspent
    ensures o.hash in u && o.n < |u[o.hash].spent| && u[o.hash].spent[o.n] == Unspent
    ensures Mirrors(j, env, b, Marked1(v, o, InMemoryPool), Marked1(u, o, pos))
  {
    assert MirrorsAt(j, env, b, v, u, o.hash);
    var v', u' := Marked1(v, o, InMemoryPool), Marked1(u, o, pos);
    forall id | id in v' ensures MirrorsAt(j, env, b, v', u', id) {
      assert MirrorsAt(j, env, b, v, u, id);
    }
  }

  /** Adding the new entry on both sides. */
  lemma {:induction false} AddEntry(j: Job, env: Env, b: BlockId, v: Index, u: Index, tx: Tx, pos: DiskPos)
    requires Mirrors(j, env, b, v, u) && pos.InBlock? && ReadTx(env, pos) == Some(tx)
    requires tx.id in j.pool && j.pool[tx.id] == tx && Eligible(j, tx)
    ensures Mirrors(j, env, b, v[tx.id := FreshEntry(InMemoryPool, |tx.vout|)], u[tx.id := FreshEntry(pos, |tx.vout|)])
  {
    var v', u' := v[tx.id := FreshEntry(InMemoryPool, |tx.vout|)], u[tx.id := FreshEntry(pos, |tx.vout|)];
    forall id | id in v' ensures MirrorsAt(j, env, b, v', u', id) {
      if id != tx.id {
        assert MirrorsAt(j, env, b, v, u, id);
      }
    }
  }

  /** ConnectBlock's loop so far agrees with block assembly so far. */
  ghost predicate InStep(j: Job, env: Env, b: BlockId, coinBase: Tx, w: Work, acc: Acc) {
    && Mirrors(j, env, b, w.view, acc.view) && acc.fees == w.fees && acc.sigOps + 100 == w.sigOps + coinBase.sigOps
  }

  lemma {:induction false} ConnectNext(j: Job, env: Env, b: BlockId, blk: Block, coinBase: Tx, w: Work, acc: Acc, tx: Tx, pos: DiskPos)
    requires Published(j, env, b, blk) && InStep(j, env, b, coinBase, w, acc) && coinBase.sigOps <= 100
    requires Fits(j, w, tx) && Eligible(j, tx) && tx.id in j.pool && j.pool[tx.id] == tx && tx.id !in j.db
    requires pos.InBlock? && ReadTx(env, pos) == Some(tx)
    ensures var next := ConnectTx(env, j.path + [b], j.db, acc, tx, pos);
      next.Some? && InStep(j, env, b, coinBase, Added(j, w, tx), next.value)
  {
    SameTx(j, env, b, blk, w.view, acc.view, tx);
    SameSpend(j, env, b, w.view, acc.view, tx.vin, pos);
    AddEntry(j, env, b, Spend(w.view, tx.vin, InMemoryPool).value, Spend(acc.view, tx.vin, pos).value, tx, pos);
  }

  lemma {:induction false} StartInStep(j: Job, env: Env, b: BlockId, blk: Block, coinBase: Tx)
    requires Published(j, env, b, blk) && coinBase.IsCoinBase() && coinBase.sigOps <= 100 && coinBase.id !in j.db
    ensures var first := ConnectTx(env, j.path + [b], j.db, Acc(j.db, 0, 0, 0, 0), coinBase, InBlock(b, 0));
      first.Some? && (Unmarked(j) ==> InStep(j, env, b, coinBase, Start(j), first.value))
  {
    var u := j.db[coinBase.id := FreshEntry(InBlock(b, 0), |coinBase.vout|)];
    if Unmarked(j) {
      forall id | id in j.db ensures MirrorsAt(j, env, b, j.db, u, id) { }
    }
  }

  /** The database never holds the memory-pool marker. */
  ghost predicate Unmarked(j: Job) {
    forall id :: id in j.db ==> j.db[id].pos.InBlock?
  }

  /** The block on disk holds this coinbase and these transactions, all of them new to the index. */
  ghost predicate Mined(j: Job, env: Env, b: BlockId, blk: Block, coinBase: Tx, vtx: seq<Tx>) {
    && Published(j, env, b, blk) && blk.vtx == [coinBase] + vtx && Unmarked(j) && Unindexed(j)
    && coinBase.IsCoinBase() && coinBase.sigOps <= 100 && coinBase.id !in j.db
  }

  /** Connecting has come as far as assembly after these n transactions. */
  ghost predicate ConnectedTo(j: Job, env: Env, b: BlockId, blk: Block, coinBase: Tx, vtx: seq<Tx>, n: nat)
    requires n < |blk.vtx| && n <= |vtx|
  {
    var w := Built(j, vtx[..n]);
    var acc := ConnectTxs(env, j.path + [b], j.db, b, blk.vtx, n + 1);
    w.Some? && acc.Some? && InStep(j, env, b, coinBase, w.value, acc.value)
  }

  lemma {:induction false} FirstConnected(j: Job, env: Env, b: BlockId, blk: Block, coinBase: Tx, vtx: seq<Tx>)
    requires Mined(j, env, b, blk, coinBase, vtx)
    ensures ConnectedTo(j, env, b, blk, coinBase, vtx, 0)
  {
    StartInStep(j, env, b, blk, coinBase);
    ConnectTxsStep(env, j.path + [b], j.db, b, blk.vtx, 1);
    assert vtx[..0] == [];
  }

  lemma {:induction false} NextConnected(j: Job, env: Env, b: BlockId, blk: Block, coinBase: Tx, vtx: seq<Tx>, n: nat)
    requires Mined(j, env, b, blk, coinBase, vtx) && n < |vtx| && ConnectedTo(j, env, b, blk, coinBase, vtx, n)
    requires Built(j, vtx[..n] + [vtx[n]]).Some? && PlacedOk(j, vtx, n)
    ensures ConnectedTo(j, env, b, blk, coinBase, vtx, n + 1)
  {
    var w := Built(j, vtx[..n]).value;
    var acc := ConnectTxs(env, j.path + [b], j.db, b, blk.vtx, n + 1).value;
    PrefixNext(vtx, n);
    BuiltStep(j, vtx[..n], vtx[n]);
    ConnectTxsStep(env, j.path + [b], j.db, b, blk.vtx, n + 2);
    ConnectNext(j, env, b, blk, coinBase, w, acc, vtx[n], InBlock(b, n + 1));
  }

  /** All transactions of the assembled block connect in turn. */
  lemma {:induction false} AllConnect(j: Job, env: Env, b: BlockId, blk: Block, coinBase: Tx, vtx: seq<Tx>, n: nat)
    requires Mined(j, env, b, blk, coinBase, vtx) && n <= |vtx|
    requires Built(j, vtx[..n]).Some? && Scheduled(j, vtx)
    ensures ConnectedTo(j, env, b, blk, coinBase, vtx, n)
  {
    if n == 0 {
      FirstConnected(j, env, b, blk, coinBase, vtx);
    } else {
      assert vtx[..n] == vtx[..n - 1] + [vtx[n - 1]];
      BuiltStep(j, vtx[..n - 1], vtx[n - 1]);
      AllConnect(j, env, b, blk, coinBase, vtx, n - 1);
      assert PlacedOk(j, vtx, n - 1);
      NextConnected(j, env, b, blk, coinBase, vtx, n - 1);
    }
  }

  /** A proof-of-work block assembled from the pool, with a coinbase that takes the reward for the
      collected fees, is accepted by ConnectBlock if CheckBlock accepts it, and the coinbase takes
      exactly the maximum that ConnectBlock computes. */
  lemma {:induction false} AssembledBlockConnects(j: Job, env: Env, b: BlockId, blk: Block, coinBase: Tx, w: Work)
    requires Built(j, w.vtx) == Some(w) && Scheduled(j, w.vtx) && Mined(j, env, b, blk, coinBase, w.vtx)
    requires |j.path| >= 1 && CheckBlock(env, blk) && !blk.IsProofOfStake()
    requires SumOut(coinBase.vout) == ProofOfWorkReward(w.fees, |j.path|)
    ensures var acc := ConnectBlock(env, j.path + [b], j.db);
      && acc.Some? && acc.value.fees == w.fees
      && SumOut(coinBase.vout) == ProofOfWorkReward(acc.value.fees, |j.path + [b]| - 1)
  {
    assert w.vtx[..|w.vtx|] == w.vtx;
    AllConnect(j, env, b, blk, coinBase, w.vtx, |w.vtx|);
    assert (j.path + [b])[|j.path|] == b;
  }

  /** CreateNewBlock for proof of work: the transactions after the coinbase, and its value. */
  method CreateNewBlock(j: Job, choose: Draws, free: nat -> bool) returns (w: Work, reward: int, ghost popped: seq<TxId>)
    requires Closed(j) && |j.path| >= 1
    ensures Built(j, w.vtx) == Some(w) && Scheduled(j, w.vtx)
    ensures w == Tried(j, popped, free) && InTurn(j, popped, free) && Exhausted(j, popped, w.vtx)
    ensures w.vtx != [] ==> 1000 + TotalSize(w.vtx) < j.maxSize && w.sigOps < MAX_BLOCK_SIGOPS
    ensures Unindexed(j) ==> CleanSpends(j, w.vtx)
    ensures reward == ProofOfWorkReward(w.fees, |j.path|)
  {
    w, popped := Assemble(j, choose, free);
    reward := ProofOfWorkReward(w.fees, |j.path|);
    WithinLimits(j, w.vtx);
    if Unindexed(j) {
      NoDoubleSpend(j, w.vtx);
    }
  }
}
