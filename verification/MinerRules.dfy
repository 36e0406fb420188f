/** What block assembly lets into a block (CreateNewBlock, miner.cpp), said of the index, the pool and
    the transactions already chosen: what an input refers to, whether its output is still there, and
    what the transaction pays for its place. */
module MinerRules {
  import opened Basics
  import opened BlockTree
  import opened Transactions
  import opened Ledger
  import opened LedgerUndo
  import opened SpentViews
  import opened BlockRules
  import opened Miner
  import opened MinerConnects

  ghost function Chosen(j: Job, vtx: seq<Tx>): Listing { Listing(j.db, vtx, None) }

  ghost predicate FromPool(j: Job, vtx: seq<Tx>) {
    forall k :: 0 <= k < |vtx| ==> vtx[k].id in j.pool && j.pool[vtx[k].id] == vtx[k]
  }

  /** The transaction that an input refers to: already chosen, or indexed. */
  ghost function Parent(j: Job, vtx: seq<Tx>, h: TxId): Option<Tx> {
    var m := Earlier(vtx, |vtx|, h);
    if m.Some? then Some(vtx[m.value]) else if h in j.db then ReadTx(j.env, j.db[h].pos) else None
  }

  /** The output that an input spends. */
  ghost function Bought(j: Job, vtx: seq<Tx>, o: OutPoint): TxOut {
    var t := Parent(j, vtx, o.hash);
    if t.Some? && o.n < |t.value.vout| then t.value.vout[o.n] else TxOut(0, [])
  }

  /** Input i spends an output that exists, once, mature, not from the future, and of a sensible value. */
  ghost predicate CandidateInput(j: Job, vtx: seq<Tx>, tx: Tx, i: nat)
    requires i < |tx.vin|
  {
    var o := tx.vin[i];
    var t := Parent(j, vtx, o.hash);
    && t.Some? && o.n < |t.value.vout|
    && Open(Chosen(j, vtx), |vtx|, o) && !UsedBefore(vtx, |vtx|, o) && o !in tx.vin[..i]
    && (t.value.IsCoinBase() || t.value.IsCoinStake() ==>
          Matured(j.path, SourceAt(Chosen(j, vtx), |vtx|, o.hash).value))
    && t.value.time <= tx.time
    && 0 <= Bought(j, vtx, o).value <= MAX_MONEY
  }

  ghost predicate CandidateInputs(j: Job, vtx: seq<Tx>, tx: Tx) {
    forall i :: 0 <= i < |tx.vin| ==> CandidateInput(j, vtx, tx, i)
  }

  ghost function BoughtFor(j: Job, vtx: seq<Tx>, tx: Tx, k: nat): int
    requires k <= |tx.vin|
  {
    if k == 0 then 0 else BoughtFor(j, vtx, tx, k - 1) + Bought(j, vtx, tx.vin[k - 1]).value
  }

  /** What the transaction takes in. */
  ghost function Takes(j: Job, vtx: seq<Tx>, tx: Tx): int { BoughtFor(j, vtx, tx, |tx.vin|) }

  ghost function BoughtOutputs(j: Job, vtx: seq<Tx>, tx: Tx): (r: seq<TxOut>)
    ensures |r| == |tx.vin| && forall i :: 0 <= i < |r| ==> r[i] == Bought(j, vtx, tx.vin[i])
  {
    seq(|tx.vin|, i requires 0 <= i < |tx.vin| => Bought(j, vtx, tx.vin[i]))
  }

  ghost function Ops(j: Job, vtx: seq<Tx>): nat {
    if vtx == [] then 0
    else
      var k := |vtx| - 1;
      Ops(j, vtx[..k]) + vtx[k].sigOps + j.env.p2shSigOps(vtx[k], BoughtOutputs(j, vtx[..k], vtx[k]))
  }

  ghost function Fees(j: Job, vtx: seq<Tx>): int {
    if vtx == [] then 0
    else
      var k := |vtx| - 1;
      Fees(j, vtx[..k]) + Takes(j, vtx[..k], vtx[k]) - SumOut(vtx[k].vout)
  }

  /** The transaction is in time, leaves room and signature operations, pays its minimum fee for the place
      after those chosen, and its inputs and their scripts are in order. */
  ghost predicate CandidateRule(j: Job, vtx: seq<Tx>, tx: Tx) {
    var size := 1000 + TotalSize(vtx);
    && size + tx.size < j.maxSize
    && tx.time <= j.now && (j.stakeTime.Some? ==> tx.time <= j.stakeTime.value)
    && CandidateInputs(j, vtx, tx)
    && (forall i :: 0 <= i < |tx.vin| ==> j.env.script(tx, i, Bought(j, vtx, tx.vin[i])))
    && 100 + Ops(j, vtx) + tx.sigOps + j.env.p2shSigOps(tx, BoughtOutputs(j, vtx, tx)) < MAX_BLOCK_SIGOPS
    && Takes(j, vtx, tx) <= MAX_MONEY && Takes(j, vtx, tx) >= SumOut(tx.vout)
    && Takes(j, vtx, tx) - SumOut(tx.vout) >= MinFee(tx, size, true, false, tx.size)
  }

  // ---------------------------------------------------------------- what assembly's view means

  lemma {:induction false} SourceLookedUp(j: Job, vtx: seq<Tx>, v: Index, o: OutPoint)
    requires ViewMeans(Chosen(j, vtx), |vtx|, v) && Unmarked(j)
    requires FromPool(j, vtx)
    ensures Lookup(j, v, o.hash) == Parent(j, vtx, o.hash)
    ensures o.hash in v ==> SourceAt(Chosen(j, vtx), |vtx|, o.hash) == Some(v[o.hash].pos)
  {
    assert EntryMeans(Chosen(j, vtx), |vtx|, v, o.hash);
  }

  lemma {:induction false} CandidateInputIff(j: Job, vtx: seq<Tx>, v: Index, tx: Tx, i: nat)
    requires i < |tx.vin| && ViewMeans(Chosen(j, vtx), |vtx|, v) && Unmarked(j)
    requires FromPool(j, vtx)
    ensures var o := tx.vin[i];
      && (CandidateInput(j, vtx, tx, i) <==> MinerInputOk(j, v, tx, o) && UnspentIn(v, o) && o !in tx.vin[..i])
      && (CandidateInput(j, vtx, tx, i) ==> Output(j, v, o) == Some(Bought(j, vtx, o)))
  {
    var o := tx.vin[i];
    SourceLookedUp(j, vtx, v, o);
    UnspentIsOpen(Chosen(j, vtx), |vtx|, v, o);
    if o.hash in v {
      MaturedIff(j.path, v[o.hash].pos);
    }
  }

  lemma {:induction false} CandidateInputsIff(j: Job, vtx: seq<Tx>, v: Index, tx: Tx)
    requires ViewMeans(Chosen(j, vtx), |vtx|, v) && Unmarked(j)
    requires FromPool(j, vtx)
    ensures CandidateInputs(j, vtx, tx) <==>
      (forall i :: 0 <= i < |tx.vin| ==> MinerInputOk(j, v, tx, tx.vin[i])) && Spend(v, tx.vin, InMemoryPool).Some?
    ensures CandidateInputs(j, vtx, tx) ==>
      ValueIn(j, v, tx.vin) == Takes(j, vtx, tx) && Miner.Outputs(j, v, tx.vin) == BoughtOutputs(j, vtx, tx)
  {
    SpendIff(v, tx.vin, InMemoryPool);
    forall i | 0 <= i < |tx.vin|
      ensures CandidateInput(j, vtx, tx, i) <==>
        MinerInputOk(j, v, tx, tx.vin[i]) && UnspentIn(v, tx.vin[i]) && tx.vin[i] !in tx.vin[..i]
      ensures CandidateInput(j, vtx, tx, i) ==> Output(j, v, tx.vin[i]) == Some(Bought(j, vtx, tx.vin[i]))
    {
      CandidateInputIff(j, vtx, v, tx, i);
    }
    if CandidateInputs(j, vtx, tx) {
      forall i | 0 <= i < |tx.vin| ensures Output(j, v, tx.vin[i]) == Some(Bought(j, vtx, tx.vin[i])) {
        assert CandidateInput(j, vtx, tx, i);
      }
      SameTakes(j, vtx, v, tx, |tx.vin|);
      assert tx.vin[..|tx.vin|] == tx.vin;
      assert Miner.Outputs(j, v, tx.vin) == BoughtOutputs(j, vtx, tx);
    }
  }

  lemma {:induction false} SameTakes(j: Job, vtx: seq<Tx>, v: Index, tx: Tx, k: nat)
    requires k <= |tx.vin| && forall i :: 0 <= i < k ==> Output(j, v, tx.vin[i]) == Some(Bought(j, vtx, tx.vin[i]))
    ensures ValueIn(j, v, tx.vin[..k]) == BoughtFor(j, vtx, tx, k)
  {
    if k > 0 {
      SameTakes(j, vtx, v, tx, k - 1);
      assert tx.vin[..k][..k - 1] == tx.vin[..k - 1] && tx.vin[..k][k - 1] == tx.vin[k - 1];
    }
  }

  // ---------------------------------------------------------------- the block under construction

  /** What the counters and the view of assembly mean after `vtx`. */
  ghost predicate Assembled(j: Job, vtx: seq<Tx>, w: Work) {
    && w.vtx == vtx && ViewMeans(Chosen(j, vtx), |vtx|, w.view)
    && w.size == 1000 + TotalSize(vtx) && w.sigOps == 100 + Ops(j, vtx) && w.fees == Fees(j, vtx)
  }

  lemma {:induction false} ConnectsIff(j: Job, vtx: seq<Tx>, v: Index, tx: Tx)
    requires ViewMeans(Chosen(j, vtx), |vtx|, v) && Unmarked(j)
    requires FromPool(j, vtx)
    ensures Connects(j, v, tx) <==>
      && CandidateInputs(j, vtx, tx) && 0 <= Takes(j, vtx, tx) <= MAX_MONEY && Takes(j, vtx, tx) >= SumOut(tx.vout)
      && (forall i :: 0 <= i < |tx.vin| ==> j.env.script(tx, i, Bought(j, vtx, tx.vin[i])))
  {
    CandidateInputsIff(j, vtx, v, tx);
  }

  lemma {:induction false} TakesNothingNegative(j: Job, vtx: seq<Tx>, tx: Tx, k: nat)
    requires CandidateInputs(j, vtx, tx) && k <= |tx.vin|
    ensures BoughtFor(j, vtx, tx, k) >= 0
  {
    if k > 0 {
      TakesNothingNegative(j, vtx, tx, k - 1);
      assert CandidateInput(j, vtx, tx, k - 1);
    }
  }

  /** The tests that assembly makes are the rule. */
  lemma {:induction false} FitsIff(j: Job, vtx: seq<Tx>, w: Work, tx: Tx)
    requires Assembled(j, vtx, w) && Unmarked(j)
    requires FromPool(j, vtx)
    ensures Fits(j, w, tx) <==> CandidateRule(j, vtx, tx)
  {
    ConnectsIff(j, vtx, w.view, tx);
    if CandidateInputs(j, vtx, tx) {
      CandidateInputsIff(j, vtx, w.view, tx);
      TakesNothingNegative(j, vtx, tx, |tx.vin|);
    }
  }

  /** The list with one more: the first n are as before. */
  lemma {:induction false} LongerListing(l: Listing, tx: Tx, v: Index)
    requires ViewMeans(l, |l.vtx|, v)
    ensures ViewMeans(Listing(l.db, l.vtx + [tx], l.block), |l.vtx|, v)
  {
    var next := Listing(l.db, l.vtx + [tx], l.block);
    var n := |l.vtx|;
    forall h ensures EntryMeans(next, n, v, h) {
      assert EntryMeans(l, n, v, h);
      SameEarlier(l.vtx, tx, n, h);
      forall k: nat | h in v ensures SlotMeans(next, n, v[h], OutPoint(h, k)) {
        assert SlotMeans(l, n, v[h], OutPoint(h, k));
        SameUsed(l.vtx, tx, OutPoint(h, k));
      }
    }
    forall o | UsedBefore(next.vtx, n, o) ensures Open(next, n, o) {
      SameUsed(l.vtx, tx, o);
      SameEarlier(l.vtx, tx, n, o.hash);
    }
  }

  lemma {:induction false} SameEarlier(vtx: seq<Tx>, tx: Tx, n: nat, h: TxId)
    requires n <= |vtx|
    ensures Earlier(vtx + [tx], n, h) == Earlier(vtx, n, h)
  {
    if n > 0 {
      SameEarlier(vtx, tx, n - 1, h);
    }
  }

  lemma {:induction false} SameUsed(vtx: seq<Tx>, tx: Tx, o: OutPoint)
    ensures UsedBefore(vtx + [tx], |vtx|, o) <==> UsedBefore(vtx, |vtx|, o)
  {
    forall m | 0 <= m < |vtx| ensures (vtx + [tx])[m] == vtx[m] { }
  }

  lemma {:induction false} AssembledNext(j: Job, vtx: seq<Tx>, w: Work, tx: Tx)
    requires Assembled(j, vtx, w) && Unmarked(j) && Fits(j, w, tx) && !tx.IsCoinBase() && tx.id !in j.db && UniqueIds(vtx + [tx])
    requires FromPool(j, vtx)
    ensures Assembled(j, vtx + [tx], Added(j, w, tx))
  {
    CandidateInputsIff(j, vtx, w.view, tx);
    LongerListing(Chosen(j, vtx), tx, w.view);
    ViewNext(Chosen(j, vtx + [tx]), |vtx|, w.view, Spend(w.view, tx.vin, InMemoryPool).value, InMemoryPool);
    assert (vtx + [tx])[..|vtx|] == vtx;
  }

  lemma {:induction false} AssembledAtStart(j: Job)
    ensures Assembled(j, [], Start(j))
  {
    ViewAtStart(Chosen(j, []));
  }

  lemma {:induction false} ScheduledFromPool(j: Job, vtx: seq<Tx>)
    requires Scheduled(j, vtx)
    ensures FromPool(j, vtx) && UniqueIds(vtx)
  {
    forall k | 0 <= k < |vtx| ensures vtx[k].id in j.pool && j.pool[vtx[k].id] == vtx[k] {
      assert PlacedOk(j, vtx, k);
    }
  }

  /** What assembly has built means what it should. */
  lemma {:induction false} BuiltMeans(j: Job, vtx: seq<Tx>)
    requires Built(j, vtx).Some? && Scheduled(j, vtx) && Unindexed(j) && Unmarked(j)
    ensures Assembled(j, vtx, Built(j, vtx).value)
    ensures FromPool(j, vtx)
  {
    ScheduledFromPool(j, vtx);
    if vtx == [] {
      AssembledAtStart(j);
    } else {
      var k := |vtx| - 1;
      var before := vtx[..k];
      assert vtx == before + [vtx[k]];
      ScheduledPrefix(j, vtx);
      BuiltStep(j, before, vtx[k]);
      BuiltMeans(j, before);
      assert PlacedOk(j, vtx, k);
      AssembledNext(j, before, Built(j, before).value, vtx[k]);
    }
  }

  lemma {:induction false} PrefixBuilt(j: Job, vtx: seq<Tx>)
    requires Built(j, vtx).Some? && Scheduled(j, vtx) && vtx != []
    ensures var n := |vtx| - 1;
      Scheduled(j, vtx[..n]) && Built(j, vtx[..n]).Some? && Fits(j, Built(j, vtx[..n]).value, vtx[n])
  {
    var n := |vtx| - 1;
    assert vtx == vtx[..n] + [vtx[n]];
    ScheduledPrefix(j, vtx);
    BuiltStep(j, vtx[..n], vtx[n]);
  }

  /** Every transaction of an assembled block keeps the rule for its place. */
  lemma {:induction false} EachKeepsRule(j: Job, vtx: seq<Tx>, k: nat)
    requires Built(j, vtx).Some? && Scheduled(j, vtx) && Unindexed(j) && Unmarked(j) && k < |vtx|
    ensures CandidateRule(j, vtx[..k], vtx[k])
    decreases |vtx|
  {
    var n := |vtx| - 1;
    PrefixBuilt(j, vtx);
    if k < n {
      EachKeepsRule(j, vtx[..n], k);
      assert vtx[..n][..k] == vtx[..k] && vtx[..n][k] == vtx[k];
    } else {
      BuiltMeans(j, vtx[..n]);
      FitsIff(j, vtx[..n], Built(j, vtx[..n]).value, vtx[n]);
    }
  }

  /** It is final and ordinary, and the fees collected are those of all. */
  lemma {:induction false} OrdinaryWithFees(j: Job, vtx: seq<Tx>)
    requires Built(j, vtx).Some? && Scheduled(j, vtx) && Unindexed(j) && Unmarked(j)
    ensures forall k :: 0 <= k < |vtx| ==> j.final(vtx[k]) && !vtx[k].IsCoinBase() && !vtx[k].IsCoinStake()
    ensures Built(j, vtx).value.fees == Fees(j, vtx)
  {
    BuiltMeans(j, vtx);
    forall k | 0 <= k < |vtx| ensures Eligible(j, vtx[k]) {
      assert PlacedOk(j, vtx, k);
    }
  }

  // ---------------------------------------------------------------- what is tried

  /** The output is that of a transaction in the index. */
  ghost predicate Stored(j: Job, o: OutPoint) {
    && o.hash in j.db && ReadTx(j.env, j.db[o.hash].pos).Some?
    && o.n < |ReadTx(j.env, j.db[o.hash].pos).value.vout|
  }

  lemma {:induction false} ParentsAre(j: Job, tx: Tx, k: nat, h: TxId)
    requires k <= |tx.vin|
    ensures h in ParentsUpTo(j, tx, k) <==> exists i :: 0 <= i < k && tx.vin[i].hash == h && !Stored(j, tx.vin[i])
  {
    if k > 0 {
      ParentsAre(j, tx, k - 1, h);
    }
  }

  /** The transaction of every input is in the index or among those chosen. */
  ghost predicate Provided(j: Job, tx: Tx, vtx: seq<Tx>) {
    forall i :: 0 <= i < |tx.vin| ==> Stored(j, tx.vin[i]) || tx.vin[i].hash in IdsOf(vtx)
  }

  lemma {:induction false} ProvidedIff(j: Job, tx: Tx, vtx: seq<Tx>)
    ensures Parents(j, tx) <= IdsOf(vtx) <==> Provided(j, tx, vtx)
  {
    forall h ensures h in Parents(j, tx) <==>
      exists i :: 0 <= i < |tx.vin| && tx.vin[i].hash == h && !Stored(j, tx.vin[i])
    {
      ParentsAre(j, tx, |tx.vin|, h);
    }
    if Parents(j, tx) <= IdsOf(vtx) {
      forall i | 0 <= i < |tx.vin| && !Stored(j, tx.vin[i]) ensures tx.vin[i].hash in IdsOf(vtx) {
        assert tx.vin[i].hash in Parents(j, tx);
      }
    }
  }

  /** What left the queue is every final ordinary transaction of the pool whose inputs are all provided. */
  lemma {:induction false} TriedIff(j: Job, popped: seq<TxId>, vtx: seq<Tx>, id: TxId)
    requires Exhausted(j, popped, vtx)
    ensures id in popped <==>
      && id in j.pool
      && var tx := j.pool[id];
         !tx.IsCoinBase() && !tx.IsCoinStake() && j.final(tx) && Provided(j, tx, vtx)
  {
    if id in j.pool {
      ProvidedIff(j, j.pool[id], vtx);
    }
  }

  // ---------------------------------------------------------------- what is left out

  /** Trying ids in turn builds a scheduled block. */
  lemma {:induction false} TriedBuilds(j: Job, popped: seq<TxId>, free: nat -> bool)
    requires Closed(j) && Distinct(popped) && InTurn(j, popped, free) && forall id :: id in popped ==> Waits(j, id)
    ensures var w := Tried(j, popped, free); Built(j, w.vtx) == Some(w) && Scheduled(j, w.vtx)
  {
    if popped != [] {
      var n := |popped| - 1;
      var before := popped[..n];
      forall m | 0 <= m < n ensures ParentsOf(j, before[m]) <= IdsOf(Tried(j, before[..m], free).vtx) {
        assert before[..m] == popped[..m];
      }
      TriedBuilds(j, before, free);
      var w := Tried(j, before, free);
      if AddedAt(j, popped, free, n) {
        var tx := j.pool[popped[n]];
        assert popped[n] in popped;
        if tx.id in IdsOf(w.vtx) {
          OnlyTried(j, before, free, tx.id);
        }
        BuiltNext(j, w, tx);
        ScheduledNext(j, w.vtx, tx);
      }
    }
  }

  /** What was tried is in the block exactly if the floating-point tests did not skip it and it keeps the
      rule after the transactions chosen by then. */
  lemma {:induction false} InBlockIff(j: Job, popped: seq<TxId>, free: nat -> bool, n: nat)
    requires Closed(j) && Distinct(popped) && InTurn(j, popped, free) && n < |popped|
    requires Unindexed(j) && Unmarked(j) && forall id :: id in popped ==> Waits(j, id)
    ensures popped[n] in j.pool
    ensures popped[n] in IdsOf(Tried(j, popped, free).vtx) <==>
      !free(n) && CandidateRule(j, Tried(j, popped[..n], free).vtx, j.pool[popped[n]])
  {
    LeftOutFailed(j, popped, free, n);
    assert popped[n] in popped;
    var before := popped[..n];
    forall m | 0 <= m < n ensures ParentsOf(j, before[m]) <= IdsOf(Tried(j, before[..m], free).vtx) {
      assert before[..m] == popped[..m];
    }
    TriedBuilds(j, before, free);
    var w := Tried(j, before, free);
    BuiltMeans(j, w.vtx);
    FitsIff(j, w.vtx, w, j.pool[popped[n]]);
  }
}
