/** What ConnectBlock accepts, said of the index before the block and of the block's transactions
    alone: what an input refers to, whether its output is still there, what its script says.  The
    view that ConnectBlock threads through its loop does not occur in the rules. */
module BlockRules {
  import opened Basics
  import opened BlockTree
  import opened Transactions
  import opened Ledger
  import opened LedgerUndo
  import opened LedgerReplay
  import opened SpentViews

  /** The block at the end of a path, about to be connected to an index. */
  datatype Setting = Setting(env: Env, path: seq<BlockId>, db: Index)

  ghost predicate OnDisk(s: Setting) {
    s.path != [] && s.path[|s.path| - 1] in s.env.disk
  }

  ghost function Vtx(s: Setting): seq<Tx>
    requires OnDisk(s)
  {
    s.env.disk[s.path[|s.path| - 1]].vtx
  }

  ghost function ListingOf(s: Setting): Listing
    requires OnDisk(s)
  {
    Listing(s.db, Vtx(s), Some(s.path[|s.path| - 1]))
  }

  // ---------------------------------------------------------------- the rules

  /** The transaction that an input of transaction n refers to: earlier in the block, or indexed. */
  ghost function Source(s: Setting, n: nat, h: TxId): Option<Tx>
    requires OnDisk(s) && n <= |Vtx(s)|
  {
    var p := SourceAt(ListingOf(s), n, h);
    if p.Some? then ReadTx(s.env, p.value) else None
  }

  /** The transaction is in none of the last sixty blocks of the path. */
  ghost predicate Matured(path: seq<BlockId>, pos: DiskPos) {
    pos.InBlock? ==> forall k :: 0 <= k < |path| && k + COINBASE_MATURITY >= |path| ==> path[k] != pos.block
  }

  /** The output that an input of transaction n spends. */
  ghost function Spent(s: Setting, n: nat, o: OutPoint): TxOut
    requires OnDisk(s) && n <= |Vtx(s)|
  {
    var t := Source(s, n, o.hash);
    if t.Some? && o.n < |t.value.vout| then t.value.vout[o.n] else TxOut(0, [])
  }

  /** Input i of transaction n spends an output that exists, once, mature, not from the future, and
      of a sensible value. */
  ghost predicate InputRule(s: Setting, n: nat, i: nat)
    requires OnDisk(s) && n < |Vtx(s)| && i < |Vtx(s)[n].vin|
  {
    var tx := Vtx(s)[n];
    var o := tx.vin[i];
    var t := Source(s, n, o.hash);
    && t.Some? && o.n < |t.value.vout|
    && Open(ListingOf(s), n, o) && !UsedBefore(Vtx(s), n, o) && o !in tx.vin[..i]
    && (t.value.IsCoinBase() || t.value.IsCoinStake() ==> Matured(s.path, SourceAt(ListingOf(s), n, o.hash).value))
    && t.value.time <= tx.time
    && 0 <= Spent(s, n, o).value <= MAX_MONEY
  }

  ghost predicate InputRules(s: Setting, n: nat)
    requires OnDisk(s) && n < |Vtx(s)|
  {
    forall i :: 0 <= i < |Vtx(s)[n].vin| ==> InputRule(s, n, i)
  }

  /** The value of the first k inputs of transaction n. */
  ghost function InTotal(s: Setting, n: nat, k: nat): int
    requires OnDisk(s) && n < |Vtx(s)| && k <= |Vtx(s)[n].vin|
  {
    if k == 0 then 0 else InTotal(s, n, k - 1) + Spent(s, n, Vtx(s)[n].vin[k - 1]).value
  }

  ghost function TotalIn(s: Setting, n: nat): int
    requires OnDisk(s) && n < |Vtx(s)|
  {
    InTotal(s, n, |Vtx(s)[n].vin|)
  }

  ghost function SpentOutputs(s: Setting, n: nat): (r: seq<TxOut>)
    requires OnDisk(s) && n < |Vtx(s)|
    ensures |r| == |Vtx(s)[n].vin| && forall i :: 0 <= i < |r| ==> r[i] == Spent(s, n, Vtx(s)[n].vin[i])
  {
    seq(|Vtx(s)[n].vin|, i requires 0 <= i < |Vtx(s)[n].vin| => Spent(s, n, Vtx(s)[n].vin[i]))
  }

  /** The signature operations of the first n transactions, those of the scripts they pay for included. */
  ghost function OpsUpTo(s: Setting, n: nat): nat
    requires OnDisk(s) && n <= |Vtx(s)|
  {
    if n == 0 then 0
    else
      var tx := Vtx(s)[n - 1];
      OpsUpTo(s, n - 1) + tx.sigOps + if tx.IsCoinBase() then 0 else s.env.p2shSigOps(tx, SpentOutputs(s, n - 1))
  }

  /** The fees of the first n transactions. */
  ghost function FeesUpTo(s: Setting, n: nat): int
    requires OnDisk(s) && n <= |Vtx(s)|
  {
    if n == 0 then 0
    else
      var tx := Vtx(s)[n - 1];
      FeesUpTo(s, n - 1) + if tx.IsCoinBase() || tx.IsCoinStake() then 0 else TotalIn(s, n - 1) - SumOut(tx.vout)
  }

  /** Every input's script accepts the output it spends. */
  ghost predicate ScriptRule(s: Setting, n: nat)
    requires OnDisk(s) && n < |Vtx(s)|
  {
    forall i :: 0 <= i < |Vtx(s)[n].vin| ==> s.env.script(Vtx(s)[n], i, Spent(s, n, Vtx(s)[n].vin[i]))
  }

  /** A coinstake later than the last hardened checkpoint takes no more than its reward; any other
      transaction pays out no more than it takes in. */
  ghost predicate ValueRule(s: Setting, n: nat)
    requires OnDisk(s) && n < |Vtx(s)|
  {
    var tx := Vtx(s)[n];
    && 0 <= TotalIn(s, n) <= MAX_MONEY
    && if tx.IsCoinStake() then
         tx.time > LAST_CHECKPOINT_TIME ==>
           var age := CoinAge(s.env, s.db, tx);
           && age.Some?
           && SumOut(tx.vout) <= TotalIn(s, n) + ProofOfStakeReward(age.value) - MinFee(tx, 1, false, false, tx.size) + CENT
       else SumOut(tx.vout) <= TotalIn(s, n)
  }

  /** Transaction n replaces nothing that can still be spent, keeps the signature-operation limit, and
      unless it is a coinbase its inputs, scripts (past the checkpointed heights) and values are in order. */
  ghost predicate TxRule(s: Setting, n: nat)
    requires OnDisk(s) && n < |Vtx(s)|
  {
    var tx := Vtx(s)[n];
    && (tx.id in s.db ==> forall k :: 0 <= k < |s.db[tx.id].spent| ==> s.db[tx.id].spent[k] != Unspent)
    && OpsUpTo(s, n + 1) <= MAX_BLOCK_SIGOPS
    && (!tx.IsCoinBase() ==>
          && InputRules(s, n)
          && (|s.path| - 1 >= TOTAL_BLOCKS_ESTIMATE ==> ScriptRule(s, n))
          && ValueRule(s, n))
  }

  ghost predicate TxRules(s: Setting, n: nat)
    requires OnDisk(s) && n <= |Vtx(s)|
  {
    forall m :: 0 <= m < n ==> TxRule(s, m)
  }

  /** All transactions, and in a proof-of-work block the coinbase, which takes at most the premine at
      height 1 and else the subsidy and the fees. */
  ghost predicate BlockRule(s: Setting)
    requires OnDisk(s)
  {
    && TxRules(s, |Vtx(s)|)
    && (!s.env.disk[s.path[|s.path| - 1]].IsProofOfStake() && Vtx(s) != [] ==>
          SumOut(Vtx(s)[0].vout) <= if |s.path| == 2 then PREMINE else SUBSIDY + FeesUpTo(s, |Vtx(s)|))
  }

  /** Inputs and outputs, the inputs all different and none null but a coinbase's; outputs and their total in
      range, and empty ones only where a block's first two transactions may have them. */
  ghost predicate TxForm(tx: Tx) {
    && |tx.vin| > 0 && |tx.vout| > 0
    && (forall i, j :: 0 <= i < |tx.vin| && 0 <= j < |tx.vin| && tx.vin[i] == tx.vin[j] ==> i == j)
    && (tx.IsCoinBase() || forall i :: 0 <= i < |tx.vin| ==> tx.vin[i] != OutPoint(0, 0xffff_ffff))
    && (forall i :: 0 <= i < |tx.vout| ==> 0 <= tx.vout[i].value <= MAX_MONEY)
    && (tx.IsCoinBase() || tx.IsCoinStake() || forall i :: 0 <= i < |tx.vout| ==> tx.vout[i] != TxOut(0, []))
    && 0 <= SumOut(tx.vout) <= MAX_MONEY
  }

  /** The first transaction is the only coinbase, only the second may be a coinstake, no id occurs twice and
      none but the coinbase is later than the block.  Beside a coinstake, which is of the time of the block,
      the coinbase pays nothing. */
  ghost predicate BlockForm(env: Env, blk: Block) {
    && |blk.vtx| > 0 && env.otherChecks(blk)
    && (forall i :: 0 <= i < |blk.vtx| ==>
          && TxForm(blk.vtx[i]) && (blk.vtx[i].IsCoinBase() <==> i == 0) && (blk.vtx[i].IsCoinStake() ==> i == 1)
          && (i > 0 ==> blk.vtx[i].time <= blk.time))
    && UniqueIds(blk.vtx)
    && (|blk.vtx| > 1 && blk.vtx[1].IsCoinStake() ==>
          blk.nonce == 0 && blk.vtx[1].time == blk.time && blk.vtx[0].vout == [TxOut(0, [])])
  }

  lemma {:induction false} TxFormIff(tx: Tx)
    ensures CheckTransaction(tx) <==> TxForm(tx)
  {
  }

  /** CheckBlock accepts exactly the blocks of this form. */
  lemma {:induction false} CheckedIff(env: Env, blk: Block)
    ensures CheckBlock(env, blk) <==> BlockForm(env, blk)
  {
    forall i | 0 <= i < |blk.vtx| ensures CheckTransaction(blk.vtx[i]) <==> TxForm(blk.vtx[i]) {
      TxFormIff(blk.vtx[i]);
    }
    forall i | 0 <= i < |blk.vtx| ensures !(blk.vtx[i].IsCoinBase() && blk.vtx[i].IsCoinStake()) { }
    if CheckBlock(env, blk) {
      assert blk.IsProofOfStake() <==> |blk.vtx| > 1 && blk.vtx[1].IsCoinStake();
    }
  }

  // ---------------------------------------------------------------- checks on the view are the rules

  lemma {:induction false} SourceInView(s: Setting, n: nat, v: Index, o: OutPoint)
    requires OnDisk(s) && n <= |Vtx(s)| && ViewMeans(ListingOf(s), n, v)
    ensures PrevTx(s.env, v, o) == Source(s, n, o.hash)
    ensures o.hash in v ==> SourceAt(ListingOf(s), n, o.hash) == Some(v[o.hash].pos)
  {
    assert EntryMeans(ListingOf(s), n, v, o.hash);
  }

  lemma {:induction false} MaturedIff(path: seq<BlockId>, pos: DiskPos)
    ensures Matured(path, pos) <==> !Immature(path, pos)
  {
  }

  /** The checks on input i and its slot are the rule for it, but for repetition. */
  lemma {:induction false} InputRuleIff(s: Setting, n: nat, v: Index, i: nat)
    requires OnDisk(s) && n < |Vtx(s)| && i < |Vtx(s)[n].vin| && ViewMeans(ListingOf(s), n, v)
    ensures var tx := Vtx(s)[n]; var o := tx.vin[i];
      && (InputRule(s, n, i) <==>
            InputOk(s.env, s.path, v, tx, o) && UnspentIn(v, o) && o !in tx.vin[..i])
      && (InputRule(s, n, i) ==> PrevOut(s.env, v, o) == Some(Spent(s, n, o)))
  {
    var o := Vtx(s)[n].vin[i];
    SourceInView(s, n, v, o);
    UnspentIsOpen(ListingOf(s), n, v, o);
    if o.hash in v {
      MaturedIff(s.path, v[o.hash].pos);
    }
  }

  lemma {:induction false} InputRulesIff(s: Setting, n: nat, v: Index, pos: DiskPos)
    requires OnDisk(s) && n < |Vtx(s)| && ViewMeans(ListingOf(s), n, v)
    ensures var tx := Vtx(s)[n];
      InputRules(s, n) <==>
        (forall i :: 0 <= i < |tx.vin| ==> InputOk(s.env, s.path, v, tx, tx.vin[i])) && Spend(v, tx.vin, pos).Some?
  {
    var tx := Vtx(s)[n];
    SpendIff(v, tx.vin, pos);
    forall i | 0 <= i < |tx.vin|
      ensures InputRule(s, n, i) <==>
        InputOk(s.env, s.path, v, tx, tx.vin[i]) && UnspentIn(v, tx.vin[i]) && tx.vin[i] !in tx.vin[..i]
    {
      InputRuleIff(s, n, v, i);
    }
  }

  /** Under the rules the outputs and totals are those of the view. */
  lemma {:induction false} SameOutputs(s: Setting, n: nat, v: Index)
    requires OnDisk(s) && n < |Vtx(s)| && ViewMeans(ListingOf(s), n, v) && InputRules(s, n)
    ensures PrevOuts(s.env, v, Vtx(s)[n].vin) == SpentOutputs(s, n)
    ensures SumIn(s.env, v, Vtx(s)[n].vin) == TotalIn(s, n)
  {
    var vin := Vtx(s)[n].vin;
    forall i | 0 <= i < |vin| ensures PrevOut(s.env, v, vin[i]) == Some(Spent(s, n, vin[i])) {
      assert InputRule(s, n, i);
      InputRuleIff(s, n, v, i);
    }
    SameTotal(s, n, v, |vin|);
    assert vin[..|vin|] == vin;
  }

  lemma {:induction false} SameTotal(s: Setting, n: nat, v: Index, k: nat)
    requires OnDisk(s) && n < |Vtx(s)| && k <= |Vtx(s)[n].vin|
    requires forall i :: 0 <= i < k ==> PrevOut(s.env, v, Vtx(s)[n].vin[i]) == Some(Spent(s, n, Vtx(s)[n].vin[i]))
    ensures SumIn(s.env, v, Vtx(s)[n].vin[..k]) == InTotal(s, n, k)
  {
    if k > 0 {
      var vin := Vtx(s)[n].vin;
      SameTotal(s, n, v, k - 1);
      assert vin[..k][..k - 1] == vin[..k - 1] && vin[..k][k - 1] == vin[k - 1];
    }
  }

  lemma {:induction false} TxOkIff(s: Setting, n: nat, v: Index, pos: DiskPos)
    requires OnDisk(s) && n < |Vtx(s)| && ViewMeans(ListingOf(s), n, v)
    ensures TxOk(s.env, s.path, s.db, v, Vtx(s)[n]) && Spend(v, Vtx(s)[n].vin, pos).Some? <==>
      && InputRules(s, n) && ValueRule(s, n)
      && (|s.path| - 1 >= TOTAL_BLOCKS_ESTIMATE ==> ScriptRule(s, n))
  {
    InputRulesIff(s, n, v, pos);
    if InputRules(s, n) {
      SameOutputs(s, n, v);
    }
  }

  // ---------------------------------------------------------------- the block

  /** The loop variables of ConnectBlock after n transactions. */
  ghost predicate Reached(s: Setting, n: nat, acc: Acc)
    requires OnDisk(s) && n <= |Vtx(s)|
  {
    ViewMeans(ListingOf(s), n, acc.view) && acc.sigOps == OpsUpTo(s, n) && acc.fees == FeesUpTo(s, n)
  }

  lemma {:induction false} MayOverwriteIff(db: Index, id: TxId)
    ensures MayOverwrite(db, id) <==> (id in db ==> forall k :: 0 <= k < |db[id].spent| ==> db[id].spent[k] != Unspent)
  {
  }

  lemma {:induction false} TxRuleIff(s: Setting, n: nat, acc: Acc)
    requires OnDisk(s) && n < |Vtx(s)| && UniqueIds(Vtx(s)) && Reached(s, n, acc)
    ensures var r := ConnectTx(s.env, s.path, s.db, acc, Vtx(s)[n], InBlock(s.path[|s.path| - 1], n));
      (r.Some? <==> TxRule(s, n)) && (r.Some? ==> Reached(s, n + 1, r.value))
  {
    var tx, pos := Vtx(s)[n], InBlock(s.path[|s.path| - 1], n);
    MayOverwriteIff(s.db, tx.id);
    TxOkIff(s, n, acc.view, pos);
    if InputRules(s, n) {
      SameOutputs(s, n, acc.view);
    }
    var r := ConnectTx(s.env, s.path, s.db, acc, tx, pos);
    if r.Some? {
      ConnectTxView(s.env, s.path, s.db, acc, tx, pos);
      ViewNext(ListingOf(s), n, acc.view, Spend(acc.view, Spends(tx), pos).value, pos);
    }
  }

  /** What ConnectBlock's loop has come to after n transactions. */
  ghost function AfterTxs(s: Setting, n: nat): Option<Acc>
    requires OnDisk(s) && n <= |Vtx(s)|
  {
    ConnectTxs(s.env, s.path, s.db, s.path[|s.path| - 1], Vtx(s), n)
  }

  ghost predicate RulesDecide(s: Setting, n: nat, r: Option<Acc>)
    requires OnDisk(s) && n <= |Vtx(s)|
  {
    (r.Some? <==> TxRules(s, n)) && (r.Some? ==> Reached(s, n, r.value))
  }

  lemma {:induction false} TxRulesSplit(s: Setting, n: nat)
    requires OnDisk(s) && n < |Vtx(s)|
    ensures TxRules(s, n + 1) <==> TxRules(s, n) && TxRule(s, n)
  {
  }

  lemma {:induction false} TxRulesNext(s: Setting, n: nat)
    requires OnDisk(s) && n < |Vtx(s)| && UniqueIds(Vtx(s)) && RulesDecide(s, n, AfterTxs(s, n))
    ensures RulesDecide(s, n + 1, AfterTxs(s, n + 1))
  {
    var before := AfterTxs(s, n);
    TxRulesSplit(s, n);
    ConnectTxsStep(s.env, s.path, s.db, s.path[|s.path| - 1], Vtx(s), n + 1);
    if before.Some? {
      TxRuleIff(s, n, before.value);
    }
  }

  lemma {:induction false} TxRulesIff(s: Setting, n: nat)
    requires OnDisk(s) && n <= |Vtx(s)| && UniqueIds(Vtx(s))
    ensures RulesDecide(s, n, AfterTxs(s, n))
  {
    if n == 0 {
      ViewAtStart(ListingOf(s));
    } else {
      TxRulesIff(s, n - 1);
      TxRulesNext(s, n - 1);
    }
  }

  /** ConnectBlock accepts a block exactly if it has the form and keeps the rules; signature operations
      and fees are then those of its transactions. */
  lemma {:induction false} ConnectsExactly(s: Setting)
    requires |s.path| >= 2
    ensures ConnectBlock(s.env, s.path, s.db).Some? <==>
      OnDisk(s) && BlockForm(s.env, s.env.disk[s.path[|s.path| - 1]]) && BlockRule(s)
    ensures ConnectBlock(s.env, s.path, s.db).Some? ==>
      var r := ConnectBlock(s.env, s.path, s.db).value;
      r.sigOps == OpsUpTo(s, |Vtx(s)|) && r.fees == FeesUpTo(s, |Vtx(s)|)
  {
    if OnDisk(s) {
      CheckedIff(s.env, s.env.disk[s.path[|s.path| - 1]]);
      if UniqueIds(Vtx(s)) {
        TxRulesIff(s, |Vtx(s)|);
      }
    }
  }

  /** On a chain that replays every block keeps the rules, with the replay of the blocks before it. */
  lemma {:induction false} ReplayObeys(env: Env, path: seq<BlockId>, k: nat)
    requires 0 < k < |path| && Replay(env, path).Some?
    ensures Replay(env, path[..k]).Some?
    ensures var s := Setting(env, path[..k + 1], Replay(env, path[..k]).value);
      OnDisk(s) && BlockForm(env, env.disk[path[k]]) && BlockRule(s)
  {
    ReplayPrefix(env, path, k + 1);
    ReplayStep(env, path[..k + 1]);
    assert path[..k + 1][..k] == path[..k];
    ConnectsExactly(Setting(env, path[..k + 1], Replay(env, path[..k]).value));
  }

  /** A chain replays exactly if it does without its last block and that block keeps the rules. */
  lemma {:induction false} ReplaysExactly(env: Env, path: seq<BlockId>)
    requires |path| >= 2
    ensures Replay(env, path).Some? <==>
      var before := Replay(env, path[..|path| - 1]);
      && before.Some?
      && var s := Setting(env, path, before.value);
         OnDisk(s) && BlockForm(env, env.disk[path[|path| - 1]]) && BlockRule(s)
  {
    var before := Replay(env, path[..|path| - 1]);
    if before.Some? {
      ConnectsExactly(Setting(env, path, before.value));
    }
  }

  // ---------------------------------------------------------------- scripts

  /** In the view before transaction n, input i refers to an indexed transaction whose output its script accepts. */
  ghost predicate ScriptEvaluated(env: Env, v: Index, tx: Tx, i: nat)
    requires i < |tx.vin|
  {
    var o := tx.vin[i];
    && o.hash in v
    && var t := ReadTx(env, v[o.hash].pos);
       t.Some? && o.n < |t.value.vout| && env.script(tx, i, t.value.vout[o.n])
  }

  /** Past the checkpointed heights no block connects unless every script of every transaction accepts. */
  lemma {:induction false} ScriptsEvaluated(env: Env, path: seq<BlockId>, db: Index, n: nat, i: nat)
    requires |path| >= 2 && |path| - 1 >= TOTAL_BLOCKS_ESTIMATE && ConnectBlock(env, path, db).Some?
    requires var vtx := env.disk[path[|path| - 1]].vtx; n < |vtx| && !vtx[n].IsCoinBase() && i < |vtx[n].vin|
    ensures var b := path[|path| - 1];
      var before := ConnectTxs(env, path, db, b, env.disk[b].vtx, n);
      before.Some? && ScriptEvaluated(env, before.value.view, env.disk[b].vtx[n], i)
  {
    var s := Setting(env, path, db);
    assert UniqueIds(Vtx(s)) && TxRules(s, |Vtx(s)|) by {
      ConnectsExactly(s);
    }
    RulesEvaluate(s, n, i);
  }

  lemma {:induction false} RulesEvaluate(s: Setting, n: nat, i: nat)
    requires OnDisk(s) && UniqueIds(Vtx(s)) && TxRules(s, |Vtx(s)|) && |s.path| - 1 >= TOTAL_BLOCKS_ESTIMATE
    requires n < |Vtx(s)| && !Vtx(s)[n].IsCoinBase() && i < |Vtx(s)[n].vin|
    ensures AfterTxs(s, n).Some? && ScriptEvaluated(s.env, AfterTxs(s, n).value.view, Vtx(s)[n], i)
  {
    TxRulesIff(s, n);
    assert TxRule(s, n);
    assert InputRules(s, n) && ScriptRule(s, n);
    RuleEvaluates(s, n, AfterTxs(s, n).value.view, i);
  }

  lemma {:induction false} RuleEvaluates(s: Setting, n: nat, v: Index, i: nat)
    requires OnDisk(s) && n < |Vtx(s)| && i < |Vtx(s)[n].vin| && ViewMeans(ListingOf(s), n, v)
    requires InputRules(s, n) && ScriptRule(s, n)
    ensures ScriptEvaluated(s.env, v, Vtx(s)[n], i)
  {
    assert InputRule(s, n, i);
    InputRuleIff(s, n, v, i);
  }

  /** So on a chain that replays, in every block at or past that height. */
  lemma {:induction false} ChainScriptsEvaluated(env: Env, path: seq<BlockId>, k: nat, n: nat, i: nat)
    requires TOTAL_BLOCKS_ESTIMATE <= k < |path| && Replay(env, path).Some? && path[k] in env.disk
    requires var vtx := env.disk[path[k]].vtx; n < |vtx| && !vtx[n].IsCoinBase() && i < |vtx[n].vin|
    ensures Replay(env, path[..k]).Some?
    ensures var before := ConnectTxs(env, path[..k + 1], Replay(env, path[..k]).value, path[k], env.disk[path[k]].vtx, n);
      before.Some? && ScriptEvaluated(env, before.value.view, env.disk[path[k]].vtx[n], i)
  {
    ReplayPrefix(env, path, k + 1);
    ReplayStep(env, path[..k + 1]);
    assert path[..k + 1][..k] == path[..k];
    ScriptsEvaluated(env, path[..k + 1], Replay(env, path[..k]).value, n, i);
  }

  /** The same node but for what scripts say. */
  ghost predicate SameButScripts(a: Env, b: Env) {
    b == a.(script := b.script)
  }

  lemma {:induction false} SameSumIn(a: Env, b: Env, v: Index, vin: seq<OutPoint>)
    requires SameButScripts(a, b)
    ensures SumIn(a, v, vin) == SumIn(b, v, vin)
  {
    if vin != [] {
      SameSumIn(a, b, v, vin[..|vin| - 1]);
      assert ValueOf(a, v, vin[|vin| - 1]) == ValueOf(b, v, vin[|vin| - 1]);
    }
  }

  lemma {:induction false} SameCentSeconds(a: Env, b: Env, db: Index, tx: Tx, k: nat)
    requires SameButScripts(a, b) && k <= |tx.vin|
    ensures CentSeconds(a, db, tx, k) == CentSeconds(b, db, tx, k)
  {
    if k > 0 {
      SameCentSeconds(a, b, db, tx, k - 1);
      assert PrevTx(a, db, tx.vin[k - 1]) == PrevTx(b, db, tx.vin[k - 1]);
    }
  }

  lemma {:induction false} SameInputsOk(a: Env, b: Env, path: seq<BlockId>, v: Index, tx: Tx)
    requires SameButScripts(a, b)
    ensures forall i :: 0 <= i < |tx.vin| ==> (InputOk(a, path, v, tx, tx.vin[i]) <==> InputOk(b, path, v, tx, tx.vin[i]))
    ensures PrevOuts(a, v, tx.vin) == PrevOuts(b, v, tx.vin)
  {
    forall i | 0 <= i < |tx.vin|
      ensures InputOk(a, path, v, tx, tx.vin[i]) <==> InputOk(b, path, v, tx, tx.vin[i])
      ensures PrevOut(a, v, tx.vin[i]) == PrevOut(b, v, tx.vin[i])
    {
      assert PrevTx(a, v, tx.vin[i]) == PrevTx(b, v, tx.vin[i]);
    }
    assert PrevOuts(a, v, tx.vin) == PrevOuts(b, v, tx.vin);
  }

  lemma {:induction false} SameTxOk(a: Env, b: Env, path: seq<BlockId>, db: Index, v: Index, tx: Tx)
    requires SameButScripts(a, b) && |path| - 1 < TOTAL_BLOCKS_ESTIMATE
    ensures TxOk(a, path, db, v, tx) == TxOk(b, path, db, v, tx)
  {
    SameSumIn(a, b, v, tx.vin);
    SameCentSeconds(a, b, db, tx, |tx.vin|);
    SameInputsOk(a, b, path, v, tx);
  }

  lemma {:induction false} SameConnectTx(a: Env, b: Env, path: seq<BlockId>, db: Index, acc: Acc, tx: Tx, pos: DiskPos)
    requires SameButScripts(a, b) && |path| - 1 < TOTAL_BLOCKS_ESTIMATE
    ensures ConnectTx(a, path, db, acc, tx, pos) == ConnectTx(b, path, db, acc, tx, pos)
  {
    SameTxOk(a, b, path, db, acc.view, tx);
    SameSumIn(a, b, acc.view, tx.vin);
    SameInputsOk(a, b, path, acc.view, tx);
  }

  lemma {:induction false} SameConnectTxs(a: Env, b: Env, path: seq<BlockId>, db: Index, id: BlockId, vtx: seq<Tx>, n: nat)
    requires SameButScripts(a, b) && |path| - 1 < TOTAL_BLOCKS_ESTIMATE && n <= |vtx|
    ensures ConnectTxs(a, path, db, id, vtx, n) == ConnectTxs(b, path, db, id, vtx, n)
  {
    if n > 0 {
      SameConnectTxs(a, b, path, db, id, vtx, n - 1);
      ConnectTxsStep(a, path, db, id, vtx, n);
      ConnectTxsStep(b, path, db, id, vtx, n);
      var before := ConnectTxs(a, path, db, id, vtx, n - 1);
      if before.Some? {
        SameConnectTx(a, b, path, db, before.value, vtx[n - 1], InBlock(id, n - 1));
      }
    }
  }

  /** Below the checkpointed height what scripts say has no influence on what connects, or to what. */
  lemma {:induction false} EarlyScriptsIgnored(a: Env, b: Env, path: seq<BlockId>, db: Index)
    requires SameButScripts(a, b) && 2 <= |path| <= TOTAL_BLOCKS_ESTIMATE
    ensures ConnectBlock(a, path, db) == ConnectBlock(b, path, db)
  {
    var id := path[|path| - 1];
    if id in a.disk {
      SameConnectTxs(a, b, path, db, id, a.disk[id].vtx, |a.disk[id].vtx|);
      assert CheckBlock(a, a.disk[id]) == CheckBlock(b, b.disk[id]);
    }
  }

  lemma {:induction false} EarlyReplayIgnoresScripts(a: Env, b: Env, path: seq<BlockId>)
    requires SameButScripts(a, b) && 1 <= |path| <= TOTAL_BLOCKS_ESTIMATE
    ensures Replay(a, path) == Replay(b, path)
  {
    if |path| > 1 {
      var before := Replay(a, path[..|path| - 1]);
      EarlyReplayIgnoresScripts(a, b, path[..|path| - 1]);
      if before.Some? {
        EarlyScriptsIgnored(a, b, path, before.value);
      }
      assert ReplayLast(a, path) == ReplayLast(b, path);
    }
  }
}
