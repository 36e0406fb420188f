/** What the age of the coins that a coinstake spends counts (GetCoinAge, main.cpp), said of the
    outputs themselves, and what that allows a proof-of-stake block to create. */
module CoinAges {
  import opened Basics
  import opened BlockTree
  import opened Transactions
  import opened Ledger
  import opened LedgerUndo
  import opened LedgerMoney
  import opened SpentViews
  import opened BlockRules

  /** The output is indexed, and its transaction can be read from its block. */
  ghost predicate OnRecord(env: Env, db: Index, o: OutPoint) {
    o.hash in db && ReadTx(env, db[o.hash].pos).Some? && o.n < |ReadTx(env, db[o.hash].pos).value.vout|
  }

  /** Seconds since the transaction of the output. */
  ghost function Held(env: Env, db: Index, tx: Tx, o: OutPoint): int
    requires OnRecord(env, db, o)
  {
    tx.time - ReadTx(env, db[o.hash].pos).value.time
  }

  ghost function CoinValue(env: Env, db: Index, o: OutPoint): int
    requires OnRecord(env, db, o)
  {
    ReadTx(env, db[o.hash].pos).value.vout[o.n].value
  }

  /** The block of the output is at least eight hours older than the coinstake. */
  ghost predicate Ripe(env: Env, db: Index, tx: Tx, o: OutPoint) {
    OnRecord(env, db, o) && tx.time - env.disk[db[o.hash].pos.block].time >= STAKE_MIN_AGE
  }

  /** Value times seconds over the first k inputs; only ripe outputs on record count. */
  ghost function ValueSeconds(env: Env, db: Index, tx: Tx, k: nat): int
    requires k <= |tx.vin|
  {
    if k == 0 then 0
    else
      var o := tx.vin[k - 1];
      ValueSeconds(env, db, tx, k - 1) + if Ripe(env, db, tx, o) then CoinValue(env, db, o) * Held(env, db, tx, o) else 0
  }

  /** No output on record is later than the coinstake, nor worth less than nothing. */
  ghost predicate Sound(env: Env, db: Index, tx: Tx, k: nat)
    requires k <= |tx.vin|
  {
    forall i :: 0 <= i < k && OnRecord(env, db, tx.vin[i]) ==>
      Held(env, db, tx, tx.vin[i]) >= 0 && CoinValue(env, db, tx.vin[i]) >= 0
  }

  lemma {:induction false} CentSecondsBounds(env: Env, db: Index, tx: Tx, k: nat)
    requires k <= |tx.vin| && Sound(env, db, tx, k)
    ensures var c := CentSeconds(env, db, tx, k);
      c.Some? && c.value * CENT <= ValueSeconds(env, db, tx, k) <= c.value * CENT + k * (CENT - 1)
  {
    if k > 0 {
      CentSecondsBounds(env, db, tx, k - 1);
      var o := tx.vin[k - 1];
      if Ripe(env, db, tx, o) {
        var x := CoinValue(env, db, o) * Held(env, db, tx, o);
        assert x >= 0;
        assert x / CENT * CENT <= x <= x / CENT * CENT + CENT - 1;
      }
    }
  }

  /** The coin age counts whole coin-days: value times time of the ripe outputs, rounded down, where
      rounding loses less than one coin-day and one cent-second an input. */
  lemma {:induction false} CoinAgeCounts(env: Env, db: Index, tx: Tx)
    requires Sound(env, db, tx, |tx.vin|)
    ensures var age := CoinAge(env, db, tx);
      && age.Some?
      && age.value * COIN * ONE_DAY <= ValueSeconds(env, db, tx, |tx.vin|)
      && ValueSeconds(env, db, tx, |tx.vin|) < (age.value + 1) * COIN * ONE_DAY + |tx.vin| * CENT
  {
    CentSecondsBounds(env, db, tx, |tx.vin|);
    var c := CentSeconds(env, db, tx, |tx.vin|).value;
    assert CoinAge(env, db, tx) == Some(c * CENT / COIN / ONE_DAY);
  }

  /** Coins of whole value held whole days, all of them ripe, count exactly. */
  lemma {:induction false} WholeCoinDays(env: Env, db: Index, tx: Tx, o: OutPoint, coins: nat, days: nat)
    requires tx.vin == [o] && Ripe(env, db, tx, o)
    requires CoinValue(env, db, o) == coins * COIN && Held(env, db, tx, o) == days * ONE_DAY
    ensures CoinAge(env, db, tx) == Some(coins * days)
  {
    var x := coins * days;
    assert CoinValue(env, db, o) * Held(env, db, tx, o) == x * COIN * ONE_DAY;
    assert CentSeconds(env, db, tx, 0) == Some(0);
    assert CentSeconds(env, db, tx, 1) == Some(x * COIN * ONE_DAY / CENT);
  }

  /** Outputs younger than eight hours, or not on record, count nothing. */
  lemma {:induction false} YoungCoinsCountNothing(env: Env, db: Index, tx: Tx)
    requires Sound(env, db, tx, |tx.vin|) && forall i :: 0 <= i < |tx.vin| ==> !Ripe(env, db, tx, tx.vin[i])
    ensures CoinAge(env, db, tx) == Some(0)
  {
    NoneRipe(env, db, tx, |tx.vin|);
  }

  lemma {:induction false} NoneRipe(env: Env, db: Index, tx: Tx, k: nat)
    requires k <= |tx.vin| && Sound(env, db, tx, k) && forall i :: 0 <= i < k ==> !Ripe(env, db, tx, tx.vin[i])
    ensures CentSeconds(env, db, tx, k) == Some(0)
  {
    if k > 0 {
      NoneRipe(env, db, tx, k - 1);
    }
  }

  /** There is no coin age exactly when an output on record is later than the coinstake. */
  lemma {:induction false} NoCoinAgeIff(env: Env, db: Index, tx: Tx, k: nat)
    requires k <= |tx.vin|
    ensures CentSeconds(env, db, tx, k).None? <==>
      exists i :: 0 <= i < k && OnRecord(env, db, tx.vin[i]) && Held(env, db, tx, tx.vin[i]) < 0
  {
    if k > 0 {
      NoCoinAgeIff(env, db, tx, k - 1);
    }
  }

  /** A connected coinstake spends outputs on record, none later than itself nor worth less than nothing. */
  lemma {:induction false} CoinStakeIsSound(env: Env, path: seq<BlockId>, db: Index)
    requires |path| >= 2 && ConnectBlock(env, path, db).Some? && env.disk[path[|path| - 1]].IsProofOfStake()
    ensures var cs := env.disk[path[|path| - 1]].vtx[1];
      Sound(env, db, cs, |cs.vin|) && forall i :: 0 <= i < |cs.vin| ==> OnRecord(env, db, cs.vin[i])
  {
    var s := Setting(env, path, db);
    CoinStakeRule(s);
    forall i | 0 <= i < |Vtx(s)[1].vin| ensures SoundAt(env, db, Vtx(s)[1], Vtx(s)[1].vin[i]) {
      InputIsSound(s, i);
    }
  }

  lemma {:induction false} CoinStakeRule(s: Setting)
    requires |s.path| >= 2 && ConnectBlock(s.env, s.path, s.db).Some? && s.env.disk[s.path[|s.path| - 1]].IsProofOfStake()
    ensures OnDisk(s) && |Vtx(s)| > 1 && Vtx(s)[0].IsCoinBase() && InputRules(s, 1)
  {
    ConnectsExactly(s);
    assert TxRule(s, 1);
  }

  ghost predicate SoundAt(env: Env, db: Index, tx: Tx, o: OutPoint) {
    OnRecord(env, db, o) && Held(env, db, tx, o) >= 0 && CoinValue(env, db, o) >= 0
  }

  /** An input of the coinstake refers to an indexed transaction, because the coinbase is not mature. */
  lemma {:induction false} InputIsSound(s: Setting, i: nat)
    requires OnDisk(s) && |Vtx(s)| > 1 && i < |Vtx(s)[1].vin| && Vtx(s)[0].IsCoinBase() && InputRule(s, 1, i)
    ensures SoundAt(s.env, s.db, Vtx(s)[1], Vtx(s)[1].vin[i])
  {
    assert Earlier(Vtx(s), 1, Vtx(s)[1].vin[i].hash).None?;
  }

  /** A proof-of-stake block after the last hardened checkpoint creates at most five percent a year of
      the ripe value that its coinstake spends. */
  lemma {:induction false} FivePercentAYear(env: Env, path: seq<BlockId>, db: Index)
    requires |path| >= 2 && ConnectBlock(env, path, db).Some?
    requires env.disk[path[|path| - 1]].IsProofOfStake() && env.disk[path[|path| - 1]].time > LAST_CHECKPOINT_TIME
    ensures var cs := env.disk[path[|path| - 1]].vtx[1];
      (Supply(env, ConnectBlock(env, path, db).value.view) - Supply(env, db)) * (365 * ONE_DAY) * 100
        <= 5 * ValueSeconds(env, db, cs, |cs.vin|)
  {
    var cs := env.disk[path[|path| - 1]].vtx[1];
    StakeBlockCreation(env, path, db);
    CoinStakeIsSound(env, path, db);
    CoinAgeCounts(env, db, cs);
    var age := CoinAge(env, db, cs).value;
    var created := Supply(env, ConnectBlock(env, path, db).value.view) - Supply(env, db);
    assert created * 365 <= age * 5 * CENT;
  }
}
