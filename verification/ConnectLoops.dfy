/** The loops of FetchInputs, ConnectInputs, ConnectBlock and DisconnectBlock (main.cpp), proved
    equal to the functions of module Ledger.  Queued changes are kept apart from the database,
    as in the source, and the view the functions speak of is `db + queued`. */
module ConnectLoops {
  import opened Basics
  import opened BlockTree
  import opened Transactions
  import opened Ledger

  /** An element of MapPrevTx. */
  datatype Fetched = Fetched(index: TxIndex, tx: Tx)

  /** `inputs` holds, for every input hash among the first k, the entry and transaction of the view. */
  ghost predicate FetchedFrom(env: Env, v: Index, vin: seq<OutPoint>, k: nat, inputs: map<TxId, Fetched>)
    requires k <= |vin|
  {
    && (forall i :: 0 <= i < k ==> vin[i].hash in inputs)
    && (forall h :: h in inputs ==>
          h in v && inputs[h].index == v[h] && ReadTx(env, v[h].pos) == Some(inputs[h].tx))
  }

  /** FetchInputs when connecting a block: every input must be in the queue or the database. */
  method FetchInputs(env: Env, db: Index, queued: Index, tx: Tx) returns (inputs: Option<map<TxId, Fetched>>)
    ensures inputs.Some? <==>
      forall i :: 0 <= i < |tx.vin| ==> PrevOut(env, db + queued, tx.vin[i]).Some?
    ensures inputs.Some? ==> FetchedFrom(env, db + queued, tx.vin, |tx.vin|, inputs.value)
  {
    var got: map<TxId, Fetched> := map[];
    for i := 0 to |tx.vin|
      invariant FetchedFrom(env, db + queued, tx.vin, i, got)
    {
      var h := tx.vin[i].hash;
      if h !in got {
        if h !in queued && h !in db {
          return None;
        }
        var entry := if h in queued then queued[h] else db[h];
        var prev := ReadTx(env, entry.pos);
        if prev.None? {
          return None;
        }
        got := got[h := Fetched(entry, prev.value)];
      }
    }
    for i := 0 to |tx.vin|
      invariant forall j :: 0 <= j < i ==> PrevOut(env, db + queued, tx.vin[j]).Some?
    {
      var o := tx.vin[i];
      if o.n >= |got[o.hash].tx.vout| || o.n >= |got[o.hash].index.spent| {
        return None;
      }
    }
    return Some(got);
  }

  /** The maturity walk of ConnectInputs over pprev. */
  method IsImmature(tree: Tree, ghost genesis: BlockId, b: BlockId, pos: DiskPos) returns (found: bool)
    requires WellFormed(tree, genesis) && b in tree
    ensures found == Immature(Path(tree, genesis, b), pos)
  {
    ghost var path := Path(tree, genesis, b);
    var top := tree[b].height;
    var p := Some(b);
    ghost var low := |path|;
    while p.Some? && top - tree[p.value].height < COINBASE_MATURITY
      invariant 0 <= low <= |path| && low >= |path| - COINBASE_MATURITY
      invariant p.Some? ==> low > 0 && p.value in tree && tree[p.value].height == low - 1 && path[low - 1] == p.value
      invariant p.None? ==> low == 0
      invariant pos.InBlock? ==> forall k :: low <= k < |path| ==> path[k] != pos.block
      decreases low
    {
      if pos.InBlock? && pos.block == p.value {
        return true;
      }
      StepBack(tree, genesis, b, low - 1);
      p := tree[p.value].prev;
      low := low - 1;
    }
    return false;
  }

  lemma {:induction false} SumInGrows(env: Env, v: Index, vin: seq<OutPoint>, k: nat)
    requires k <= |vin| && forall i :: k <= i < |vin| ==> ValueOf(env, v, vin[i]) >= 0
    ensures SumIn(env, v, vin[..k]) <= SumIn(env, v, vin)
  {
    if k == |vin| {
      assert vin[..k] == vin;
    } else {
      var w := vin[..|vin| - 1];
      SumInGrows(env, v, w, k);
      assert w[..k] == vin[..k];
    }
  }

  ghost predicate InputsOk(env: Env, path: seq<BlockId>, v: Index, tx: Tx, k: nat)
    requires k <= |tx.vin|
  {
    forall i :: 0 <= i < k ==> InputOk(env, path, v, tx, tx.vin[i])
  }

  /** A running total that leaves the money range cannot come back into it. */
  lemma {:induction false} TotalOutOfRange(env: Env, path: seq<BlockId>, v: Index, tx: Tx, k: nat)
    requires k <= |tx.vin| && SumIn(env, v, tx.vin[..k]) > MAX_MONEY
    ensures !InputsOk(env, path, v, tx, |tx.vin|) || !MoneyRange(SumIn(env, v, tx.vin))
  {
    if InputsOk(env, path, v, tx, |tx.vin|) {
      SumInGrows(env, v, tx.vin, k);
    }
  }

  lemma {:induction false} SumInStep(env: Env, v: Index, vin: seq<OutPoint>, i: nat)
    requires i < |vin|
    ensures SumIn(env, v, vin[..i + 1]) == SumIn(env, v, vin[..i]) + ValueOf(env, v, vin[i])
  {
    assert vin[..i + 1][..i] == vin[..i];
  }

  lemma {:induction false} InputsOkStep(env: Env, path: seq<BlockId>, v: Index, tx: Tx, i: nat)
    requires i < |tx.vin| && InputsOk(env, path, v, tx, i)
    ensures InputOk(env, path, v, tx, tx.vin[i]) ==> InputsOk(env, path, v, tx, i + 1)
    ensures !InputOk(env, path, v, tx, tx.vin[i]) ==> !InputsOk(env, path, v, tx, |tx.vin|)
  {
  }

  /** The first loop of ConnectInputs: the inexpensive checks and the input total. */
  method CheckInputs(env: Env, tree: Tree, ghost genesis: BlockId, b: BlockId, ghost v: Index,
                     inputs: map<TxId, Fetched>, tx: Tx) returns (ok: bool, valueIn: int)
    requires WellFormed(tree, genesis) && b in tree
    requires FetchedFrom(env, v, tx.vin, |tx.vin|, inputs)
    ensures ok <==>
      InputsOk(env, Path(tree, genesis, b), v, tx, |tx.vin|) && MoneyRange(SumIn(env, v, tx.vin))
    ensures ok ==> valueIn == SumIn(env, v, tx.vin)
  {
    ghost var path := Path(tree, genesis, b);
    valueIn := 0;
    for i := 0 to |tx.vin|
      invariant valueIn == SumIn(env, v, tx.vin[..i]) && MoneyRange(valueIn)
      invariant InputsOk(env, path, v, tx, i)
    {
      var o := tx.vin[i];
      var value;
      ok, value := CheckInput(env, tree, genesis, b, v, inputs[o.hash], tx, o);
      InputsOkStep(env, path, v, tx, i);
      if !ok {
        return false, 0;
      }
      SumInStep(env, v, tx.vin, i);
      valueIn := valueIn + value;
      if !MoneyRange(valueIn) {
        TotalOutOfRange(env, path, v, tx, i + 1);
        return false, 0;
      }
    }
    assert tx.vin[..|tx.vin|] == tx.vin;
    return true, valueIn;
  }

  /** The checks on one input, and its value. */
  method CheckInput(env: Env, tree: Tree, ghost genesis: BlockId, b: BlockId, ghost v: Index,
                    prev: Fetched, tx: Tx, o: OutPoint) returns (ok: bool, value: int)
    requires WellFormed(tree, genesis) && b in tree
    requires o.hash in v && prev.index == v[o.hash] && ReadTx(env, v[o.hash].pos) == Some(prev.tx)
    ensures ok == InputOk(env, Path(tree, genesis, b), v, tx, o)
    ensures ok ==> value == ValueOf(env, v, o) && MoneyRange(value)
  {
    if o.n >= |prev.tx.vout| || o.n >= |prev.index.spent| {
      return false, 0;
    }
    if prev.tx.IsCoinBase() || prev.tx.IsCoinStake() {
      var immature := IsImmature(tree, genesis, b, prev.index.pos);
      if immature {
        return false, 0;
      }
    }
    value := prev.tx.vout[o.n].value;
    return prev.tx.time <= tx.time && MoneyRange(value), value;
  }

  lemma {:induction false} SpendFailsOnPrefix(v: Index, vin: seq<OutPoint>, pos: DiskPos, k: nat)
    requires k <= |vin| && Spend(v, vin[..k], pos).None?
    ensures Spend(v, vin, pos).None?
  {
    if k == |vin| {
      assert vin[..k] == vin;
    } else {
      var w := vin[..|vin| - 1];
      assert w[..k] == vin[..k];
      SpendFailsOnPrefix(v, w, pos, k);
    }
  }

  lemma {:induction false} SpendStep(v: Index, vin: seq<OutPoint>, pos: DiskPos, i: nat, w: Index)
    requires i < |vin| && Spend(v, vin[..i], pos) == Some(w)
    requires vin[i].hash in w && vin[i].n < |w[vin[i].hash].spent|
    ensures var e := w[vin[i].hash];
      Spend(v, vin[..i + 1], pos) ==
        if e.spent[vin[i].n] != Unspent then None
        else Some(w[vin[i].hash := e.(spent := e.spent[vin[i].n := SpentBy(pos)])])
  {
    assert vin[..i + 1][..i] == vin[..i];
  }

  /** Queueing an entry changes the view at that entry. */
  lemma {:induction false} QueueEntry(db: Index, queued: Index, h: TxId, e: TxIndex)
    ensures db + queued[h := e] == (db + queued)[h := e]
  {
  }

  /** The working copy of the inputs agrees with the current view `w`. */
  ghost predicate Mirrors(inputs: map<TxId, Fetched>, fetched: map<TxId, Fetched>, w: Index) {
    && inputs.Keys == fetched.Keys
    && forall h :: h in inputs ==>
         && h in w && inputs[h].index == w[h] && inputs[h].tx == fetched[h].tx
         && |inputs[h].index.spent| == |fetched[h].index.spent|
  }

  lemma {:induction false} MirrorsStep(inputs: map<TxId, Fetched>, fetched: map<TxId, Fetched>, w: Index, h: TxId, e: TxIndex)
    requires Mirrors(inputs, fetched, w) && h in inputs && |e.spent| == |inputs[h].index.spent|
    ensures Mirrors(inputs[h := inputs[h].(index := e)], fetched, w[h := e])
  {
  }

  ghost predicate ScriptsOk(env: Env, v: Index, tx: Tx, k: nat)
    requires k <= |tx.vin|
  {
    forall i :: 0 <= i < k ==> env.script(tx, i, PrevOuts(env, v, tx.vin)[i])
  }

  /** The first i inputs are spent, which leads from the view `v` to `w`. */
  ghost predicate SpentTo(env: Env, v: Index, fetched: map<TxId, Fetched>, tx: Tx, pos: DiskPos, scripts: bool, i: nat,
                          inputs: map<TxId, Fetched>, w: Index) {
    && i <= |tx.vin| && Spend(v, tx.vin[..i], pos) == Some(w) && Mirrors(inputs, fetched, w)
    && (scripts ==> ScriptsOk(env, v, tx, i))
  }

  function MarkedBy(e: TxIndex, n: nat, pos: DiskPos): TxIndex
    requires n < |e.spent|
  {
    e.(spent := e.spent[n := SpentBy(pos)])
  }

  /** The next input is in the working copy, as the view has it. */
  lemma {:induction false} InputAtHand(env: Env, v: Index, fetched: map<TxId, Fetched>, tx: Tx, i: nat,
                                       inputs: map<TxId, Fetched>, w: Index)
    requires i < |tx.vin| && Mirrors(inputs, fetched, w) && FetchedFrom(env, v, tx.vin, |tx.vin|, fetched)
    requires PrevOut(env, v, tx.vin[i]).Some?
    ensures var o := tx.vin[i];
      && o.hash in inputs && o.n < |inputs[o.hash].index.spent| && o.n < |inputs[o.hash].tx.vout|
      && o.hash in w && w[o.hash] == inputs[o.hash].index
      && PrevOuts(env, v, tx.vin)[i] == inputs[o.hash].tx.vout[o.n]
  {
  }

  /** What the tests on the next input decide, and what marking it leads to. */
  lemma {:induction false} SpendNext(env: Env, v: Index, fetched: map<TxId, Fetched>, tx: Tx, pos: DiskPos, scripts: bool, i: nat,
                                     inputs: map<TxId, Fetched>, w: Index, o: OutPoint, prev: Fetched)
    requires SpentTo(env, v, fetched, tx, pos, scripts, i, inputs, w) && i < |tx.vin| && o == tx.vin[i]
    requires o.hash in inputs && prev == inputs[o.hash] && o.n < |prev.index.spent| && o.n < |prev.tx.vout|
    requires o.hash in w && w[o.hash] == prev.index && PrevOuts(env, v, tx.vin)[i] == prev.tx.vout[o.n]
    ensures prev.index.spent[o.n] != Unspent ==> Spend(v, tx.vin, pos).None?
    ensures scripts && !env.script(tx, i, prev.tx.vout[o.n]) ==> !ScriptsOk(env, v, tx, |tx.vin|)
    ensures prev.index.spent[o.n] == Unspent && (scripts ==> env.script(tx, i, prev.tx.vout[o.n])) ==>
      var e := MarkedBy(prev.index, o.n, pos);
      SpentTo(env, v, fetched, tx, pos, scripts, i + 1, inputs[o.hash := prev.(index := e)], w[o.hash := e])
  {
    SpendStep(v, tx.vin, pos, i, w);
    if prev.index.spent[o.n] != Unspent {
      SpendFailsOnPrefix(v, tx.vin, pos, i + 1);
    }
    MirrorsStep(inputs, fetched, w, o.hash, MarkedBy(prev.index, o.n, pos));
  }

  /** The second loop of ConnectInputs: double-spend test, script check, marking and queueing.
      `inputs` is the method's own copy, so that a second use of an entry sees the first. */
  method SpendInputs(env: Env, db: Index, queued: Index, fetched: map<TxId, Fetched>, tx: Tx, pos: DiskPos,
                     scripts: bool) returns (ok: bool, queued': Index)
    requires FetchedFrom(env, db + queued, tx.vin, |tx.vin|, fetched)
    requires forall i :: 0 <= i < |tx.vin| ==> PrevOut(env, db + queued, tx.vin[i]).Some?
    ensures ok <==>
      && Spend(db + queued, tx.vin, pos).Some?
      && (scripts ==> ScriptsOk(env, db + queued, tx, |tx.vin|))
    ensures ok ==> Spend(db + queued, tx.vin, pos) == Some(db + queued')
  {
    ghost var v := db + queued;
    var inputs := fetched;
    queued' := queued;
    for i := 0 to |tx.vin|
      invariant SpentTo(env, v, fetched, tx, pos, scripts, i, inputs, db + queued')
    {
      var o := tx.vin[i];
      InputAtHand(env, v, fetched, tx, i, inputs, db + queued');
      var prev := inputs[o.hash];
      SpendNext(env, v, fetched, tx, pos, scripts, i, inputs, db + queued', o, prev);
      if prev.index.spent[o.n] != Unspent {
        return false, queued;
      }
      if scripts && !env.script(tx, i, prev.tx.vout[o.n]) {
        return false, queued;
      }
      var marked := MarkedBy(prev.index, o.n, pos);
      inputs := inputs[o.hash := prev.(index := marked)];
      QueueEntry(db, queued', o.hash, marked);
      queued' := queued'[o.hash := marked];
    }
    assert tx.vin[..|tx.vin|] == tx.vin;
    return true, queued';
  }

  /** ConnectInputs of a transaction in a block. */
  method ConnectInputs(env: Env, tree: Tree, ghost genesis: BlockId, b: BlockId, db: Index, queued: Index,
                       inputs: map<TxId, Fetched>, tx: Tx, pos: DiskPos) returns (ok: bool, queued': Index)
    requires WellFormed(tree, genesis) && b in tree
    requires FetchedFrom(env, db + queued, tx.vin, |tx.vin|, inputs)
    requires forall i :: 0 <= i < |tx.vin| ==> PrevOut(env, db + queued, tx.vin[i]).Some?
    ensures ok <==>
      && TxOk(env, Path(tree, genesis, b), db, db + queued, tx)
      && Spend(db + queued, tx.vin, pos).Some?
    ensures ok ==> Spend(db + queued, tx.vin, pos) == Some(db + queued')
  {
    var valueIn;
    ok, valueIn := CheckInputs(env, tree, genesis, b, db + queued, inputs, tx);
    if !ok {
      return false, queued;
    }
    ok, queued' := SpendInputs(env, db, queued, inputs, tx, pos, tree[b].height >= TOTAL_BLOCKS_ESTIMATE);
    if !ok {
      return false, queued;
    }
    var valueOut := SumOut(tx.vout);
    if tx.IsCoinStake() {
      if tx.time > LAST_CHECKPOINT_TIME {
        var age := CoinAge(env, db, tx);
        if age.None? {
          return false, queued;
        }
        var cap := ProofOfStakeReward(age.value) - MinFee(tx, 1, false, false, tx.size) + CENT;
        if valueOut - valueIn > cap {
          return false, queued;
        }
      }
    } else if valueIn < valueOut {
      return false, queued;
    }
  }

  /** The transaction loop of ConnectBlock and the reward check after it.  On success the
      returned totals carry the index that the queued changes produce. */
  method ConnectBlockTxs(env: Env, tree: Tree, ghost genesis: BlockId, b: BlockId, db: Index)
    returns (r: Option<Acc>)
    requires WellFormed(tree, genesis) && b in tree && b != genesis
    ensures r == ConnectBlock(env, Path(tree, genesis, b), db)
  {
    ghost var path := Path(tree, genesis, b);
    if b !in env.disk || !CheckBlock(env, env.disk[b]) {
      return None;
    }
    var vtx := env.disk[b].vtx;
    var acc := Acc(map[], 0, 0, 0, 0);
    assert db + acc.view == db;
    for i := 0 to |vtx|
      invariant ConnectTxs(env, path, db, b, vtx, i) == Some(acc.(view := db + acc.view))
    {
      var step := ConnectOne(env, tree, genesis, b, db, acc, vtx[i], InBlock(b, i));
      if step.None? {
        TxsFailOnPrefix(env, path, db, b, vtx, i + 1, |vtx|);
        return None;
      }
      acc := step.value;
    }
    if !env.disk[b].IsProofOfStake() && SumOut(vtx[0].vout) > ProofOfWorkReward(acc.fees, tree[b].height) {
      return None;
    }
    // what was queued goes to the database
    return Some(acc.(view := db + acc.view));
  }

  lemma {:induction false} TxsFailOnPrefix(
    env: Env, path: seq<BlockId>, db: Index, b: BlockId, vtx: seq<Tx>, k: nat, n: nat)
    requires k <= n <= |vtx| && ConnectTxs(env, path, db, b, vtx, k).None?
    ensures ConnectTxs(env, path, db, b, vtx, n).None?
  {
    if k < n {
      TxsFailOnPrefix(env, path, db, b, vtx, k, n - 1);
    }
  }

  /** ConnectTx of a transaction with inputs that passed the first two tests. */
  lemma {:induction false} ConnectSpenderView(env: Env, path: seq<BlockId>, db: Index, acc: Acc, tx: Tx, pos: DiskPos)
    requires !tx.IsCoinBase() && MayOverwrite(db, tx.id) && acc.sigOps + tx.sigOps <= MAX_BLOCK_SIGOPS
    ensures
      var inn, out := SumIn(env, acc.view, tx.vin), SumOut(tx.vout);
      var ops := acc.sigOps + tx.sigOps + env.p2shSigOps(tx, PrevOuts(env, acc.view, tx.vin));
      var spent := Spend(acc.view, tx.vin, pos);
      ConnectTx(env, path, db, acc, tx, pos) ==
        if TxOk(env, path, db, acc.view, tx) && spent.Some? && ops <= MAX_BLOCK_SIGOPS then
          Some(Acc(spent.value[tx.id := FreshEntry(pos, |tx.vout|)], ops,
                   acc.fees + (if tx.IsCoinStake() then 0 else inn - out),
                   acc.valueIn + inn, acc.valueOut + out))
        else None
  {
  }

  /** The result of an iteration `r`, whose view holds the new queue, agrees with the outcome
      `s` of ConnectTx, whose view is the database overlaid with that queue. */
  ghost predicate SameOutcome(db: Index, r: Option<Acc>, s: Option<Acc>) {
    && (r.None? <==> s.None?)
    && (r.Some? ==> s == Some(r.value.(view := db + r.value.view)))
  }

  /** One iteration of ConnectBlock's loop; `acc.view` is the queue. */
  method ConnectOne(env: Env, tree: Tree, ghost genesis: BlockId, b: BlockId, db: Index,
                    acc: Acc, tx: Tx, pos: DiskPos) returns (r: Option<Acc>)
    requires WellFormed(tree, genesis) && b in tree
    ensures SameOutcome(db, r, ConnectTx(env, Path(tree, genesis, b), db, acc.(view := db + acc.view), tx, pos))
  {
    if tx.id in db && !db[tx.id].FullySpent() {
      return None;
    }
    if acc.sigOps + tx.sigOps > MAX_BLOCK_SIGOPS {
      return None;
    }
    if tx.IsCoinBase() {
      var entry := FreshEntry(pos, |tx.vout|);
      QueueEntry(db, acc.view, tx.id, entry);
      return Some(acc.(view := acc.view[tx.id := entry], sigOps := acc.sigOps + tx.sigOps,
                       valueOut := acc.valueOut + SumOut(tx.vout)));
    }
    r := ConnectSpender(env, tree, genesis, b, db, acc, tx, pos);
  }

  /** The part of an iteration that deals with a transaction that has inputs. */
  method ConnectSpender(env: Env, tree: Tree, ghost genesis: BlockId, b: BlockId, db: Index,
                        acc: Acc, tx: Tx, pos: DiskPos) returns (r: Option<Acc>)
    requires WellFormed(tree, genesis) && b in tree
    requires !tx.IsCoinBase() && MayOverwrite(db, tx.id) && acc.sigOps + tx.sigOps <= MAX_BLOCK_SIGOPS
    ensures SameOutcome(db, r, ConnectTx(env, Path(tree, genesis, b), db, acc.(view := db + acc.view), tx, pos))
  {
    var v := db + acc.view;
    var ops := acc.sigOps + tx.sigOps + env.p2shSigOps(tx, PrevOuts(env, v, tx.vin));
    var ok, queued := FetchAndConnect(env, tree, genesis, b, db, acc.view, ops, tx, pos);
    SpenderOutcome(env, Path(tree, genesis, b), db, acc, tx, pos, ok, queued);
    if !ok {
      return None;
    }
    var inn, out := SumIn(env, v, tx.vin), SumOut(tx.vout);
    var fees := acc.fees + if tx.IsCoinStake() then 0 else inn - out;
    return Some(Acc(queued[tx.id := FreshEntry(pos, |tx.vout|)], ops, fees, acc.valueIn + inn, acc.valueOut + out));
  }

  lemma {:induction false} SpenderOutcome(env: Env, path: seq<BlockId>, db: Index, acc: Acc, tx: Tx, pos: DiskPos, ok: bool, queued: Index)
    requires !tx.IsCoinBase() && MayOverwrite(db, tx.id) && acc.sigOps + tx.sigOps <= MAX_BLOCK_SIGOPS
    requires ok ==> Spend(db + acc.view, tx.vin, pos) == Some(db + queued)
    requires var v := db + acc.view;
      ok <==>
        && TxOk(env, path, db, v, tx) && Spend(v, tx.vin, pos).Some?
        && acc.sigOps + tx.sigOps + env.p2shSigOps(tx, PrevOuts(env, v, tx.vin)) <= MAX_BLOCK_SIGOPS
    ensures
      var v := db + acc.view;
      var ops := acc.sigOps + tx.sigOps + env.p2shSigOps(tx, PrevOuts(env, v, tx.vin));
      var inn, out := SumIn(env, v, tx.vin), SumOut(tx.vout);
      var fees := acc.fees + if tx.IsCoinStake() then 0 else inn - out;
      SameOutcome(db,
        if ok then Some(Acc(queued[tx.id := FreshEntry(pos, |tx.vout|)], ops, fees, acc.valueIn + inn, acc.valueOut + out)) else None,
        ConnectTx(env, path, db, acc.(view := v), tx, pos))
  {
    ConnectSpenderView(env, path, db, acc.(view := db + acc.view), tx, pos);
    QueueEntry(db, queued, tx.id, FreshEntry(pos, |tx.vout|));
  }

  /** FetchInputs, the second signature-operation test and ConnectInputs. */
  method FetchAndConnect(env: Env, tree: Tree, ghost genesis: BlockId, b: BlockId, db: Index, queued: Index,
                         ops: nat, tx: Tx, pos: DiskPos) returns (ok: bool, queued': Index)
    requires WellFormed(tree, genesis) && b in tree
    ensures ok <==>
      && TxOk(env, Path(tree, genesis, b), db, db + queued, tx)
      && Spend(db + queued, tx.vin, pos).Some?
      && ops <= MAX_BLOCK_SIGOPS
    ensures ok ==> Spend(db + queued, tx.vin, pos) == Some(db + queued')
  {
    var inputs := FetchInputs(env, db, queued, tx);
    if inputs.None? {
      FetchFailure(env, Path(tree, genesis, b), db, db + queued, tx);
      return false, queued;
    }
    if ops > MAX_BLOCK_SIGOPS {
      return false, queued;
    }
    ok, queued' := ConnectInputs(env, tree, genesis, b, db, queued, inputs.value, tx, pos);
  }

  lemma {:induction false} FetchFailure(env: Env, path: seq<BlockId>, db: Index, v: Index, tx: Tx)
    requires exists i :: 0 <= i < |tx.vin| && PrevOut(env, v, tx.vin[i]).None?
    ensures !TxOk(env, path, db, v, tx)
  {
    var i :| 0 <= i < |tx.vin| && PrevOut(env, v, tx.vin[i]).None?;
    assert !InputOk(env, path, v, tx, tx.vin[i]);
  }

  lemma {:induction false} UnspendFailsOnPrefix(v: Index, vin: seq<OutPoint>, k: nat)
    requires k <= |vin| && Unspend(v, vin[..k]).None?
    ensures Unspend(v, vin).None?
  {
    if k == |vin| {
      assert vin[..k] == vin;
    } else {
      var w := vin[..|vin| - 1];
      assert w[..k] == vin[..k];
      UnspendFailsOnPrefix(v, w, k);
    }
  }

  lemma {:induction false} UnspendStep(v: Index, vin: seq<OutPoint>, i: nat, w: Index)
    requires i < |vin| && Unspend(v, vin[..i]) == Some(w)
    ensures var o := vin[i];
      Unspend(v, vin[..i + 1]) ==
        if o.hash !in w || o.n >= |w[o.hash].spent| then None
        else Some(w[o.hash := w[o.hash].(spent := w[o.hash].spent[o.n := Unspent])])
  {
    assert vin[..i + 1][..i] == vin[..i];
  }

  /** DisconnectInputs: clear the spent slots, then erase the transaction. */
  method DisconnectInputs(db: Index, tx: Tx) returns (r: Option<Index>)
    ensures r == DisconnectTx(db, tx)
  {
    var w := db;
    if !tx.IsCoinBase() {
      for i := 0 to |tx.vin|
        invariant Unspend(db, tx.vin[..i]) == Some(w)
      {
        var o := tx.vin[i];
        UnspendStep(db, tx.vin, i, w);
        if o.hash !in w || o.n >= |w[o.hash].spent| {
          UnspendFailsOnPrefix(db, tx.vin, i + 1);
          return None;
        }
        w := w[o.hash := w[o.hash].(spent := w[o.hash].spent[o.n := Unspent])];
      }
      assert tx.vin[..|tx.vin|] == tx.vin;
    }
    return Some(w - {tx.id});
  }

  /** DisconnectBlock: the transactions in reverse order. */
  method DisconnectBlockTxs(env: Env, b: BlockId, db: Index) returns (r: Option<Index>)
    ensures r == DisconnectBlock(env, b, db)
  {
    if b !in env.disk {
      return None;
    }
    var vtx := env.disk[b].vtx;
    var w := db;
    var i := |vtx|;
    while i > 0
      invariant 0 <= i <= |vtx|
      invariant DisconnectTxs(w, vtx, i) == DisconnectTxs(db, vtx, |vtx|)
    {
      var step := DisconnectInputs(w, vtx[i - 1]);
      if step.None? {
        return None;
      }
      w := step.value;
      i := i - 1;
    }
    return Some(w);
  }
}
