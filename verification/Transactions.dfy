/** Transactions, blocks and the transaction index of main.h, with the fee and reward rules of main.cpp. */
module Transactions {
  import opened BlockTree

  const COIN := 100_000_000
  const CENT := 1_000_000
  const MAX_MONEY := 2_000_000_000 * COIN
  const MIN_TX_FEE := 1_000
  const MIN_RELAY_TX_FEE := 1_000
  const MAX_BLOCK_SIZE := 1_000_000
  const MAX_BLOCK_SIZE_GEN := MAX_BLOCK_SIZE / 2
  const MAX_BLOCK_SIGOPS := MAX_BLOCK_SIZE / 50
  const COINBASE_MATURITY := 60
  const STAKE_MIN_AGE := 8 * 60 * 60
  const ONE_DAY := 24 * 60 * 60

  /** Height and time of the last hardened checkpoint (checkpoints.cpp). */
  const TOTAL_BLOCKS_ESTIMATE := 170_000
  const LAST_CHECKPOINT_TIME := 1_533_686_156

  type TxId = int

  datatype OutPoint = OutPoint(hash: TxId, n: nat) {
    predicate IsNull() { hash == 0 && n == 0xffff_ffff }
  }

  datatype TxOut = TxOut(value: int, script: seq<nat>) {
    predicate IsEmpty() { value == 0 && script == [] }
  }

  /** CTransaction with its hash, serialized size and legacy signature-operation count, and with the
      bytes of the first input's scriptSig, which in a coinbase carries the block height. */
  datatype Tx = Tx(id: TxId, time: nat, vin: seq<OutPoint>, vout: seq<TxOut>, size: nat, sigOps: nat, scriptSig: seq<nat>) {
    predicate IsCoinBase() { |vin| == 1 && vin[0].IsNull() && |vout| >= 1 }
    predicate IsCoinStake() { |vin| > 0 && !vin[0].IsNull() && |vout| >= 2 && vout[0].IsEmpty() }
  }

  datatype Block = Block(time: nat, nonce: nat, vtx: seq<Tx>) {
    predicate IsProofOfStake() { |vtx| > 1 && vtx[1].IsCoinStake() }
  }

  /** CDiskTxPos: the i-th transaction of a block on disk, or the memory-pool marker (1,1,1). */
  datatype DiskPos = InBlock(block: BlockId, i: nat) | InMemoryPool

  /** A slot of CTxIndex::vSpent. */
  datatype Slot = Unspent | SpentBy(pos: DiskPos)

  datatype TxIndex = TxIndex(pos: DiskPos, spent: seq<Slot>) {
    predicate FullySpent() { forall n :: 0 <= n < |spent| ==> spent[n] != Unspent }
  }

  /** The "tx" table of CTxDB. */
  type Index = map<TxId, TxIndex>

  predicate MoneyRange(v: int) { 0 <= v <= MAX_MONEY }

  function SumOut(vout: seq<TxOut>): int {
    if vout == [] then 0 else SumOut(vout[..|vout| - 1]) + vout[|vout| - 1].value
  }

  /** CTransaction::GetMinFee for a transaction of `bytes` bytes. */
  function MinFee(tx: Tx, blockSize: nat, allowFree: bool, relay: bool, bytes: nat): int {
    var base := if tx.IsCoinStake() then CENT else if relay then MIN_RELAY_TX_FEE else MIN_TX_FEE;
    var newSize := blockSize + bytes;
    var free := allowFree && (if blockSize == 1 then bytes < 1000 else newSize < 27_000);
    var fee := (if free then 0 else (1 + bytes / 1000) * base) + DustFee(tx.vout, base);
    Congested(fee, blockSize, newSize)
  }

  /** The part of GetMinFee that raises the fee as a block fills up. */
  function Congested(fee: int, blockSize: nat, newSize: nat): int {
    if blockSize != 1 && newSize >= MAX_BLOCK_SIZE_GEN / 2 && newSize >= MAX_BLOCK_SIZE_GEN then
      MAX_MONEY
    else
      var raised :=
        if blockSize != 1 && newSize >= MAX_BLOCK_SIZE_GEN / 2
        then fee * (MAX_BLOCK_SIZE_GEN / (MAX_BLOCK_SIZE_GEN - newSize)) else fee;
      if MoneyRange(raised) then raised else MAX_MONEY
  }

  /** One base fee for every non-empty output below one cent. */
  function DustFee(vout: seq<TxOut>, base: int): (fee: int)
    ensures base >= 0 ==> fee >= 0
  {
    if vout == [] then 0
    else
      var last := vout[|vout| - 1];
      DustFee(vout[..|vout| - 1], base) + if last.value < CENT && !last.IsEmpty() then base else 0
  }

  const SUBSIDY := 10_000
  const PREMINE := 1_000_000_000 * COIN

  function ProofOfWorkReward(fees: int, height: nat): int {
    if height == 1 then PREMINE else SUBSIDY + fees
  }

  function ProofOfStakeReward(coinAge: nat): int {
    coinAge * (5 * CENT) / 365
  }

  /** The coinstake minimum fee never falls below CENT (the argument of ConnectInputs' reward cap). */
  lemma {:induction false} CoinStakeMinFee(tx: Tx)
    requires tx.IsCoinStake()
    ensures MinFee(tx, 1, false, false, tx.size) >= CENT
  {
    assert (1 + tx.size / 1000) * CENT >= CENT;
  }

  /** The non-empty outputs below one cent. */
  ghost function Dust(vout: seq<TxOut>): set<nat> {
    set i: nat | i < |vout| && vout[i].value < CENT && !(vout[i].value == 0 && vout[i].script == [])
  }

  lemma {:induction false} DustNext(vout: seq<TxOut>)
    requires vout != []
    ensures var k := |vout| - 1;
      |Dust(vout)| == |Dust(vout[..k])| + if vout[k].value < CENT && !vout[k].IsEmpty() then 1 else 0
  {
    var k := |vout| - 1;
    var rest := Dust(vout[..k]);
    assert Dust(vout) == if k in Dust(vout) then rest + {k} else rest;
  }

  lemma {:induction false} OneMore(n: nat, base: nat)
    ensures (n + 1) * base == n * base + base
  {
  }

  lemma {:induction false} DustFeeCounts(vout: seq<TxOut>, base: nat)
    ensures DustFee(vout, base) == |Dust(vout)| * base
  {
    if vout == [] {
      assert Dust(vout) == {};
    } else {
      var k := |vout| - 1;
      DustFeeCounts(vout[..k], base);
      DustNext(vout);
      OneMore(|Dust(vout[..k])|, base);
    }
  }

  lemma {:induction false} UnitsAdd(a: nat, b: nat, base: nat)
    ensures a * base + b * base == (a + b) * base
  {
  }

  /** A fee while a block grows: times a factor past half of the size limit for assembly, without bound at it. */
  ghost function Raised(fee: nat, blockSize: nat, total: nat): nat {
    if blockSize != 1 && total >= 500_000 then MAX_MONEY
    else
      var raised := if blockSize != 1 && total >= 250_000 then fee * (500_000 / (500_000 - total)) else fee;
      if raised <= MAX_MONEY then raised else MAX_MONEY
  }

  lemma {:induction false} ProductPositive(a: nat, b: nat)
    ensures a * b >= 0
  {
  }

  lemma {:induction false} CongestedIs(fee: nat, blockSize: nat, total: nat)
    ensures Congested(fee, blockSize, total) == Raised(fee, blockSize, total)
  {
    if blockSize != 1 && 250_000 <= total < 500_000 {
      var factor := 500_000 / (500_000 - total);
      assert factor == MAX_BLOCK_SIZE_GEN / (MAX_BLOCK_SIZE_GEN - total);
      ProductPositive(fee, factor);
    }
  }

  lemma {:induction false} BaseFeeIs(tx: Tx, blockSize: nat, allowFree: bool, relay: bool, bytes: nat, base: nat, fee: nat)
    requires base == if tx.IsCoinStake() then 1_000_000 else 1000
    requires var free := allowFree && if blockSize == 1 then bytes < 1000 else blockSize + bytes < 27_000;
      fee == (if free then 0 else (1 + bytes / 1000) * base) + DustFee(tx.vout, base)
    ensures MinFee(tx, blockSize, allowFree, relay, bytes) == Congested(fee, blockSize, blockSize + bytes)
  {
    if tx.IsCoinStake() {
      assert base == CENT;
    } else {
      assert base == MIN_TX_FEE == MIN_RELAY_TX_FEE;
    }
  }

  /** The minimum fee is the base fee for each started kilobyte, free ones apart, and for each dust output,
      raised as the block grows. */
  lemma {:induction false} MinFeeIs(tx: Tx, blockSize: nat, allowFree: bool, relay: bool, bytes: nat, base: nat, units: nat)
    requires base == if tx.IsCoinStake() then 1_000_000 else 1000
    requires var free := allowFree && if blockSize == 1 then bytes < 1000 else blockSize + bytes < 27_000;
      units == (if free then 0 else 1 + bytes / 1000) + |Dust(tx.vout)|
    ensures units * base >= 0
    ensures MinFee(tx, blockSize, allowFree, relay, bytes) == Raised(units * base, blockSize, blockSize + bytes)
  {
    ProductPositive(units, base);
    DustFeeCounts(tx.vout, base);
    UnitsAdd(units - |Dust(tx.vout)|, |Dust(tx.vout)|, base);
    BaseFeeIs(tx, blockSize, allowFree, relay, bytes, base, units * base);
    CongestedIs(units * base, blockSize, blockSize + bytes);
  }

  /** The part of CheckTransaction that the ledger argument uses. */
  predicate CheckTransaction(tx: Tx) {
    && tx.vin != [] && tx.vout != []
    && (forall i :: 0 <= i < |tx.vout| ==>
          MoneyRange(tx.vout[i].value) && (tx.vout[i].IsEmpty() ==> tx.IsCoinBase() || tx.IsCoinStake()))
    && MoneyRange(SumOut(tx.vout))
    && (forall i, j :: 0 <= i < j < |tx.vin| ==> tx.vin[i] != tx.vin[j])
    && (!tx.IsCoinBase() ==> forall i :: 0 <= i < |tx.vin| ==> !tx.vin[i].IsNull())
  }
}
