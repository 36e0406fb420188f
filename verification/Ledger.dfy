/** What connecting and disconnecting a block does to the transaction index (main.cpp).

    The functions here are the specification: they thread one view of the index (the database
    overlaid with the changes queued so far).  The loops of the source are in module ConnectLoops
    and are proved equal to these functions. */
module Ledger {
  import opened Basics
  import opened BlockTree
  import opened Transactions

  /** What the ledger takes from outside: the block files, script evaluation, the count of
      pay-to-script-hash signature operations and the context-free checks of CheckBlock that
      have no bearing on the index (proof of work, signatures, sizes, clock). */
  datatype Env = Env(
    disk: map<BlockId, Block>,
    script: (Tx, nat, TxOut) -> bool,
    p2shSigOps: (Tx, seq<TxOut>) -> nat,
    otherChecks: Block -> bool)

  function ReadTx(env: Env, pos: DiskPos): Option<Tx> {
    if pos.InBlock? && pos.block in env.disk && pos.i < |env.disk[pos.block].vtx|
    then Some(env.disk[pos.block].vtx[pos.i]) else None
  }

  // ---------------------------------------------------------------- spending slots

  /** Marks the outpoints of `vin`, in order, as spent at `pos`; None when an outpoint is
      unknown, out of range or already spent. */
  function Spend(v: Index, vin: seq<OutPoint>, pos: DiskPos): Option<Index> {
    if vin == [] then Some(v)
    else
      var k := |vin| - 1;
      var before := Spend(v, vin[..k], pos);
      if before.None? then None else
      var o, w := vin[k], before.value;
      if o.hash !in w || o.n >= |w[o.hash].spent| || w[o.hash].spent[o.n] != Unspent then None
      else Some(w[o.hash := w[o.hash].(spent := w[o.hash].spent[o.n := SpentBy(pos)])])
  }

  /** The output is indexed and marked as spent. */
  ghost predicate SpentIn(v: Index, o: OutPoint) {
    o.hash in v && o.n < |v[o.hash].spent| && v[o.hash].spent[o.n] != Unspent
  }

  /** The loop of DisconnectInputs: clears the slots; None when one cannot be found. */
  function Unspend(v: Index, vin: seq<OutPoint>): Option<Index> {
    if vin == [] then Some(v)
    else
      var k := |vin| - 1;
      var before := Unspend(v, vin[..k]);
      if before.None? then None else
      var o, w := vin[k], before.value;
      if o.hash !in w || o.n >= |w[o.hash].spent| then None
      else Some(w[o.hash := w[o.hash].(spent := w[o.hash].spent[o.n := Unspent])])
  }

  /** CTxIndex(pos, n): nothing spent yet. */
  function FreshEntry(pos: DiskPos, n: nat): (e: TxIndex)
    ensures e.pos == pos && |e.spent| == n && forall k :: 0 <= k < n ==> e.spent[k] == Unspent
  {
    TxIndex(pos, seq(n, _ => Unspent))
  }

  // ---------------------------------------------------------------- connecting

  /** txPrev of an input: the transaction at the position recorded in the view. */
  function PrevTx(env: Env, v: Index, o: OutPoint): Option<Tx> {
    if o.hash in v then ReadTx(env, v[o.hash].pos) else None
  }

  /** The output an input refers to, if FetchInputs can produce it. */
  function PrevOut(env: Env, v: Index, o: OutPoint): Option<TxOut> {
    var p := PrevTx(env, v, o);
    if p.Some? && o.n < |p.value.vout| && o.n < |v[o.hash].spent| then Some(p.value.vout[o.n]) else None
  }

  function ValueOf(env: Env, v: Index, o: OutPoint): int {
    var p := PrevOut(env, v, o);
    if p.Some? then p.value.value else 0
  }

  function SumIn(env: Env, v: Index, vin: seq<OutPoint>): int {
    if vin == [] then 0 else SumIn(env, v, vin[..|vin| - 1]) + ValueOf(env, v, vin[|vin| - 1])
  }

  function PrevOuts(env: Env, v: Index, vin: seq<OutPoint>): seq<TxOut> {
    seq(|vin|, i requires 0 <= i < |vin| =>
      var p := PrevOut(env, v, vin[i]); if p.Some? then p.value else TxOut(0, []))
  }

  /** The coinbase-maturity walk: one of the last COINBASE_MATURITY blocks of the chain that
      ends in the block being connected holds the transaction. */
  predicate Immature(path: seq<BlockId>, pos: DiskPos) {
    pos.InBlock? && exists k :: Max(0, |path| - COINBASE_MATURITY) <= k < |path| && path[k] == pos.block
  }

  /** The checks ConnectInputs makes on input `o`, spending apart. */
  predicate InputOk(env: Env, path: seq<BlockId>, v: Index, tx: Tx, o: OutPoint) {
    var p := PrevTx(env, v, o);
    && p.Some?
    && o.n < |p.value.vout| && o.n < |v[o.hash].spent|
    && !((p.value.IsCoinBase() || p.value.IsCoinStake()) && Immature(path, v[o.hash].pos))
    && p.value.time <= tx.time
    && MoneyRange(p.value.vout[o.n].value)
  }

  /** CTransaction::GetCoinAge over the first `k` inputs, in cent-seconds. */
  function CentSeconds(env: Env, db: Index, tx: Tx, k: nat): Option<nat>
    requires k <= |tx.vin|
  {
    if k == 0 then Some(0)
    else
      var before := CentSeconds(env, db, tx, k - 1);
      var o := tx.vin[k - 1];
      var p := PrevTx(env, db, o);
      if before.None? || p.None? || o.n >= |p.value.vout| then before
      else if tx.time < p.value.time then None
      else if env.disk[db[o.hash].pos.block].time + STAKE_MIN_AGE > tx.time then before
      else
        var value := p.value.vout[o.n].value;
        Some(before.value + Max(0, value) * (tx.time - p.value.time) / CENT)
  }

  function CoinAge(env: Env, db: Index, tx: Tx): Option<nat> {
    var c := CentSeconds(env, db, tx, |tx.vin|);
    if c.None? then None else Some(c.value * CENT / COIN / ONE_DAY)
  }

  /** Everything FetchInputs and ConnectInputs require of a non-coinbase transaction, the
      double-spend test apart.  `db` is the database before the block, `v` the current view. */
  predicate TxOk(env: Env, path: seq<BlockId>, db: Index, v: Index, tx: Tx) {
    && (forall i :: 0 <= i < |tx.vin| ==> InputOk(env, path, v, tx, tx.vin[i]))
    && MoneyRange(SumIn(env, v, tx.vin))
    && (|path| - 1 >= TOTAL_BLOCKS_ESTIMATE ==>
          forall i :: 0 <= i < |tx.vin| ==> env.script(tx, i, PrevOuts(env, v, tx.vin)[i]))
    && (if tx.IsCoinStake() then
          tx.time > LAST_CHECKPOINT_TIME ==>
            var age := CoinAge(env, db, tx);
            && age.Some?
            && SumOut(tx.vout) - SumIn(env, v, tx.vin)
                 <= ProofOfStakeReward(age.value) - MinFee(tx, 1, false, false, tx.size) + CENT
        else
          SumIn(env, v, tx.vin) >= SumOut(tx.vout))
  }

  /** The loop variables of ConnectBlock. */
  datatype Acc = Acc(view: Index, sigOps: nat, fees: int, valueIn: int, valueOut: int)

  /** BIP 30: a transaction may overwrite an indexed one only if that one is fully spent. */
  predicate MayOverwrite(db: Index, id: TxId) {
    id in db ==> db[id].FullySpent()
  }

  /** One iteration of ConnectBlock's transaction loop. */
  function ConnectTx(env: Env, path: seq<BlockId>, db: Index, acc: Acc, tx: Tx, pos: DiskPos): Option<Acc> {
    if !MayOverwrite(db, tx.id) || acc.sigOps + tx.sigOps > MAX_BLOCK_SIGOPS then None
    else if tx.IsCoinBase() then
      Some(acc.(view := acc.view[tx.id := FreshEntry(pos, |tx.vout|)],
                sigOps := acc.sigOps + tx.sigOps,
                valueOut := acc.valueOut + SumOut(tx.vout)))
    else if !TxOk(env, path, db, acc.view, tx) then None
    else
      var ops := acc.sigOps + tx.sigOps + env.p2shSigOps(tx, PrevOuts(env, acc.view, tx.vin));
      var spent := Spend(acc.view, tx.vin, pos);
      var inn, out := SumIn(env, acc.view, tx.vin), SumOut(tx.vout);
      if ops > MAX_BLOCK_SIGOPS || spent.None? then None
      else
        Some(Acc(spent.value[tx.id := FreshEntry(pos, |tx.vout|)],
                 ops,
                 acc.fees + if tx.IsCoinStake() then 0 else inn - out,
                 acc.valueIn + inn,
                 acc.valueOut + out))
  }

  /** The first `n` transactions of block `b`. */
  function ConnectTxs(env: Env, path: seq<BlockId>, db: Index, b: BlockId, vtx: seq<Tx>, n: nat): Option<Acc>
    requires n <= |vtx|
    decreases n, 1
  {
    if n == 0 then Some(Acc(db, 0, 0, 0, 0)) else ConnectLastTx(env, path, db, b, vtx, n)
  }

  function ConnectLastTx(env: Env, path: seq<BlockId>, db: Index, b: BlockId, vtx: seq<Tx>, n: nat): Option<Acc>
    requires 0 < n <= |vtx|
    decreases n, 0
  {
    var before := ConnectTxs(env, path, db, b, vtx, n - 1);
    if before.None? then None
    else ConnectTx(env, path, db, before.value, vtx[n - 1], InBlock(b, n - 1))
  }

  /** The last transaction connects to what the ones before lead to. */
  lemma {:induction false} ConnectTxsStep(env: Env, path: seq<BlockId>, db: Index, b: BlockId, vtx: seq<Tx>, n: nat)
    requires 0 < n <= |vtx|
    ensures var before := ConnectTxs(env, path, db, b, vtx, n - 1);
      ConnectTxs(env, path, db, b, vtx, n) ==
        if before.None? then None else ConnectTx(env, path, db, before.value, vtx[n - 1], InBlock(b, n - 1))
  {
    assert ConnectTxs(env, path, db, b, vtx, n) == ConnectLastTx(env, path, db, b, vtx, n);
  }

  /** CheckBlock: shape of the block, transaction by transaction, and unique transaction ids. */
  predicate CheckBlock(env: Env, blk: Block) {
    && blk.vtx != []
    && blk.vtx[0].IsCoinBase()
    && (forall i :: 0 <= i < |blk.vtx| ==> CheckTransaction(blk.vtx[i]))
    && (blk.IsProofOfStake() ==>
          && blk.nonce == 0
          && |blk.vtx[0].vout| == 1 && blk.vtx[0].vout[0].IsEmpty()
          && blk.time == blk.vtx[1].time)
    && (forall i :: (if blk.IsProofOfStake() then 2 else 1) <= i < |blk.vtx| ==>
          !blk.vtx[i].IsCoinBase() && !blk.vtx[i].IsCoinStake() && blk.vtx[i].time <= blk.time)
    && (forall i, j :: 0 <= i < j < |blk.vtx| ==> blk.vtx[i].id != blk.vtx[j].id)
    && env.otherChecks(blk)
  }

  /** ConnectBlock for the block at the end of `path` (genesis first). */
  function ConnectBlock(env: Env, path: seq<BlockId>, db: Index): Option<Acc>
    requires |path| >= 2
  {
    var b := path[|path| - 1];
    if b !in env.disk || !CheckBlock(env, env.disk[b]) then None
    else
      var blk := env.disk[b];
      var acc := ConnectTxs(env, path, db, b, blk.vtx, |blk.vtx|);
      if acc.None? then None
      else if !blk.IsProofOfStake()
              && SumOut(blk.vtx[0].vout) > ProofOfWorkReward(acc.value.fees, |path| - 1) then None
      else acc
  }

  // ---------------------------------------------------------------- disconnecting

  function DisconnectTx(v: Index, tx: Tx): Option<Index> {
    var w := if tx.IsCoinBase() then Some(v) else Unspend(v, tx.vin);
    if w.None? then None else Some(w.value - {tx.id})
  }

  /** DisconnectBlock's reverse loop over the first `n` transactions. */
  function DisconnectTxs(v: Index, vtx: seq<Tx>, n: nat): Option<Index>
    requires n <= |vtx|
    decreases n
  {
    if n == 0 then Some(v)
    else
      var w := DisconnectTx(v, vtx[n - 1]);
      if w.None? then None else DisconnectTxs(w.value, vtx, n - 1)
  }

  function DisconnectBlock(env: Env, b: BlockId, v: Index): Option<Index> {
    if b !in env.disk then None else DisconnectTxs(v, env.disk[b].vtx, |env.disk[b].vtx|)
  }

  // ---------------------------------------------------------------- replay

  /** The index obtained by connecting every block after genesis, in order. */
  function Replay(env: Env, path: seq<BlockId>): Option<Index>
    requires path != []
    decreases |path|, 0
  {
    if |path| == 1 then Some(map[])
    else
      var last := ReplayLast(env, path);
      if last.None? then None else Some(last.value.view)
  }

  /** What ConnectBlock computes for the last block of the path. */
  function ReplayLast(env: Env, path: seq<BlockId>): Option<Acc>
    requires |path| >= 2
    decreases |path| - 1, 1
  {
    var before := Replay(env, path[..|path| - 1]);
    if before.None? then None else ConnectBlock(env, path, before.value)
  }
}
