/** Block assembly (CreateNewBlock, miner.cpp).  The order of the priority heap and the tests on
    floating-point priorities are arbitrary choices here. */
module Miner {
  import opened Basics
  import opened StdOrder
  import opened BlockTree
  import opened Transactions
  import opened Ledger

  /** What assembly works on: the chain it builds on with its index, the memory pool, the clock,
      the limits, IsFinal, and the timestamp of the coinstake if there is one. */
  datatype Job = Job(env: Env, path: seq<BlockId>, db: Index, pool: map<TxId, Tx>,
                     now: nat, stakeTime: Option<nat>, maxSize: nat, final: Tx -> bool)

  /** CTransaction::ReadFromDisk of an input's previous transaction. */
  predicate OnChain(j: Job, o: OutPoint) {
    PrevTx(j.env, j.db, o).Some? && o.n < |PrevTx(j.env, j.db, o).value.vout|
  }

  predicate Eligible(j: Job, tx: Tx) {
    !tx.IsCoinBase() && !tx.IsCoinStake() && j.final(tx)
  }

  /** The pool is keyed by transaction id, and its inputs are all on chain or in the pool. */
  ghost predicate Closed(j: Job) {
    forall id :: id in j.pool ==> j.pool[id].id == id && InputsKnown(j, j.pool[id])
  }

  ghost predicate InputsKnown(j: Job, tx: Tx) {
    forall i :: 0 <= i < |tx.vin| ==> OnChain(j, tx.vin[i]) || tx.vin[i].hash in j.pool
  }

  /** The transactions of the pool that the first k inputs of `tx` wait for. */
  function ParentsUpTo(j: Job, tx: Tx, k: nat): set<TxId>
    requires k <= |tx.vin|
  {
    if k == 0 then {}
    else ParentsUpTo(j, tx, k - 1) + (if OnChain(j, tx.vin[k - 1]) then {} else {tx.vin[k - 1].hash})
  }

  function Parents(j: Job, tx: Tx): set<TxId> { ParentsUpTo(j, tx, |tx.vin|) }

  /** Every input that is not on chain refers to a parent. */
  lemma {:induction false} ParentOfInput(j: Job, tx: Tx, k: nat, i: nat)
    requires i < k <= |tx.vin| && !OnChain(j, tx.vin[i])
    ensures tx.vin[i].hash in ParentsUpTo(j, tx, k)
  {
    if i < k - 1 {
      ParentOfInput(j, tx, k - 1, i);
    }
  }

  ghost predicate Waits(j: Job, id: TxId) {
    id in j.pool && Eligible(j, j.pool[id])
  }

  ghost function ParentsOf(j: Job, id: TxId): set<TxId> {
    if id in j.pool then Parents(j, j.pool[id]) else {}
  }

  // ---------------------------------------------------------------- sorting the pool into ready and waiting

  /** After the ids `seen`: the ready ones, what each waiting one depends on, and who depends on whom. */
  ghost predicate SortedOut(j: Job, seen: seq<TxId>, ready: seq<TxId>, deps: map<TxId, set<TxId>>, dependers: map<TxId, seq<TxId>>) {
    && Distinct(ready)
    && (forall id :: id in ready <==> id in seen && Waits(j, id) && ParentsOf(j, id) == {})
    && (forall id :: id in deps <==> id in seen && Waits(j, id) && ParentsOf(j, id) != {})
    && (forall id :: id in deps ==> deps[id] == ParentsOf(j, id))
    && (forall h, id :: DependsOn(dependers, h, id) <==> id in seen && Waits(j, id) && h in ParentsOf(j, id))
  }

  ghost predicate DependsOn(dependers: map<TxId, seq<TxId>>, h: TxId, id: TxId) {
    h in dependers && id in dependers[h]
  }

  function Appended(dependers: map<TxId, seq<TxId>>, h: TxId, id: TxId): (r: map<TxId, seq<TxId>>)
    ensures forall g, x :: DependsOn(r, g, x) <==> DependsOn(dependers, g, x) || (g == h && x == id)
  {
    var r := dependers[h := (if h in dependers then dependers[h] else []) + [id]];
    assert forall g, x :: DependsOn(r, g, x) <==> DependsOn(dependers, g, x) || (g == h && x == id) by {
      forall g, x ensures DependsOn(r, g, x) <==> DependsOn(dependers, g, x) || (g == h && x == id) {
        assert h in dependers ==> (x in r[h] <==> x in dependers[h] || x == id);
      }
    }
    r
  }

  /** The loop over a transaction's inputs. */
  method FindParents(j: Job, tx: Tx, dependers0: map<TxId, seq<TxId>>) returns (waitsFor: set<TxId>, dependers: map<TxId, seq<TxId>>)
    ensures waitsFor == Parents(j, tx)
    ensures forall h, x :: DependsOn(dependers, h, x) <==> DependsOn(dependers0, h, x) || (x == tx.id && h in Parents(j, tx))
  {
    waitsFor, dependers := {}, dependers0;
    for k := 0 to |tx.vin|
      invariant waitsFor == ParentsUpTo(j, tx, k)
      invariant forall h, x :: DependsOn(dependers, h, x) <==> DependsOn(dependers0, h, x) || (x == tx.id && h in ParentsUpTo(j, tx, k))
    {
      if !OnChain(j, tx.vin[k]) {
        dependers := Appended(dependers, tx.vin[k].hash, tx.id);
        waitsFor := waitsFor + {tx.vin[k].hash};
      }
    }
  }

  /** One transaction of the memory pool. */
  method SortOne(j: Job, id: TxId, ghost q: seq<TxId>, ghost i: nat, ready0: seq<TxId>, deps0: map<TxId, set<TxId>>, dependers0: map<TxId, seq<TxId>>)
    returns (ready: seq<TxId>, deps: map<TxId, set<TxId>>, dependers: map<TxId, seq<TxId>>)
    requires Closed(j) && Increasing(q) && i < |q| && q[i] == id && id in j.pool && SortedOut(j, q[..i], ready0, deps0, dependers0)
    ensures SortedOut(j, q[..i + 1], ready, deps, dependers)
  {
    ready, deps, dependers := ready0, deps0, dependers0;
    var tx := j.pool[id];
    var waitsFor := {};
    if Eligible(j, tx) {
      waitsFor, dependers := FindParents(j, tx, dependers);
    }
    SortNext(j, q, i, ready, deps, dependers0, dependers);
    if Eligible(j, tx) {
      if waitsFor == {} {
        ready := ready + [id];
      } else {
        deps := deps[id := waitsFor];
      }
    }
  }

  /** The loop over the memory pool. */
  method SortOut(j: Job) returns (ready: seq<TxId>, deps: map<TxId, set<TxId>>, dependers: map<TxId, seq<TxId>>)
    requires Closed(j)
    ensures SortedOut(j, Ascending(j.pool.Keys), ready, deps, dependers)
  {
    var q := Iterate(j.pool.Keys);
    ready, deps, dependers := [], map[], map[];
    SortStart(j, q);
    for i := 0 to |q|
      invariant SortedOut(j, q[..i], ready, deps, dependers)
    {
      assert q[i] in q;
      ready, deps, dependers := SortOne(j, q[i], q, i, ready, deps, dependers);
    }
    assert q[..|q|] == q;
  }

  lemma {:induction false} SortStart(j: Job, q: seq<TxId>)
    ensures SortedOut(j, q[..0], [], map[], map[])
  {
  }

  lemma {:induction false} SortNext(j: Job, q: seq<TxId>, i: nat, ready: seq<TxId>, deps: map<TxId, set<TxId>>,
                 dependers0: map<TxId, seq<TxId>>, dependers: map<TxId, seq<TxId>>)
    requires Increasing(q) && i < |q| && q[i] in j.pool && SortedOut(j, q[..i], ready, deps, dependers0)
    requires if Eligible(j, j.pool[q[i]])
      then forall h, x :: DependsOn(dependers, h, x) <==> DependsOn(dependers0, h, x) || (x == q[i] && h in Parents(j, j.pool[q[i]]))
      else dependers == dependers0
    ensures
      if !Eligible(j, j.pool[q[i]]) then SortedOut(j, q[..i + 1], ready, deps, dependers)
      else if Parents(j, j.pool[q[i]]) == {} then SortedOut(j, q[..i + 1], ready + [q[i]], deps, dependers)
      else SortedOut(j, q[..i + 1], ready, deps[q[i] := Parents(j, j.pool[q[i]])], dependers)
  {
    var id := q[i];
    assert id !in q[..i];
    assert q[..i + 1] == q[..i] + [id];
    assert id !in ready;
    var w := ParentsOf(j, id);
    forall h, x ensures DependsOn(dependers, h, x) <==> x in q[..i + 1] && Waits(j, x) && h in ParentsOf(j, x) {
      assert DependsOn(dependers0, h, x) <==> x in q[..i] && Waits(j, x) && h in ParentsOf(j, x);
    }
  }

  // ---------------------------------------------------------------- the queue

  ghost function IdsOf(vtx: seq<Tx>): set<TxId> { set k | 0 <= k < |vtx| :: vtx[k].id }

  /** `ever` lists what was ever put into the queue: the eligible transactions whose parents are
      all in the block; the others wait for exactly the parents that are not.  For an id in `seen`
      the block counts as `after`, for the others as `before`. */
  ghost predicate Queued(j: Job, ever: seq<TxId>, deps: map<TxId, set<TxId>>, before: set<TxId>, after: set<TxId>, seen: seq<TxId>) {
    && Distinct(ever)
    && (forall id :: id in ever <==> Waits(j, id) && ParentsOf(j, id) <= Placed(before, after, seen, id))
    && (forall id :: id in deps <==> Waits(j, id) && ParentsOf(j, id) != {})
    && (forall id :: id in deps ==> deps[id] == ParentsOf(j, id) - Placed(before, after, seen, id))
  }

  ghost function Placed(before: set<TxId>, after: set<TxId>, seen: seq<TxId>, id: TxId): set<TxId> {
    if id in seen then after else before
  }

  lemma {:induction false} ReleaseNext(j: Job, ever: seq<TxId>, deps: map<TxId, set<TxId>>, before: set<TxId>, h: TxId, list: seq<TxId>, i: nat)
    requires i < |list| && Queued(j, ever, deps, before, before + {h}, list[..i]) && h !in before
    requires Waits(j, list[i]) && h in ParentsOf(j, list[i])
    ensures var d := list[i];
      && d in deps
      && (if deps[d] == {} then Queued(j, ever, deps, before, before + {h}, list[..i + 1])
          else if deps[d] - {h} == {} then Queued(j, ever + [d], deps[d := {}], before, before + {h}, list[..i + 1])
          else Queued(j, ever, deps[d := deps[d] - {h}], before, before + {h}, list[..i + 1]))
  {
    var d := list[i];
    var after := before + {h};
    assert list[..i + 1] == list[..i] + [d];
    assert d in deps;
    if d in list[..i] {
      assert deps[d] - {h} == deps[d];
    } else {
      assert h in deps[d];
      assert deps[d] - {h} == ParentsOf(j, d) - after;
    }
    assert ParentsOf(j, d) <= after <==> ParentsOf(j, d) - after == {};
    forall id | id != d ensures Placed(before, after, list[..i + 1], id) == Placed(before, after, list[..i], id) { }
  }

  /** Once everything that depends on h has been looked at, the block counts as having it for all. */
  lemma {:induction false} ReleaseEnd(j: Job, ever: seq<TxId>, deps: map<TxId, set<TxId>>, before: set<TxId>, h: TxId, list: seq<TxId>)
    requires Queued(j, ever, deps, before, before + {h}, list)
    requires forall id :: Waits(j, id) && h in ParentsOf(j, id) ==> id in list
    ensures Queued(j, ever, deps, before + {h}, before + {h}, [])
  {
    var after := before + {h};
    forall id | Waits(j, id)
      ensures ParentsOf(j, id) - Placed(before, after, list, id) == ParentsOf(j, id) - after
      ensures ParentsOf(j, id) <= Placed(before, after, list, id) <==> ParentsOf(j, id) <= after
    {
      if id !in list {
        assert h !in ParentsOf(j, id);
      }
    }
  }

  /** The loop over mapDependers[h] after h was added to the block. */
  method Release(j: Job, h: TxId, list: seq<TxId>, ready0: seq<TxId>, deps0: map<TxId, set<TxId>>,
                 ghost popped: seq<TxId>, ghost before: set<TxId>)
    returns (ready: seq<TxId>, deps: map<TxId, set<TxId>>)
    requires Queued(j, popped + ready0, deps0, before, before, []) && h !in before
    requires forall id :: id in list <==> Waits(j, id) && h in ParentsOf(j, id)
    ensures Queued(j, popped + ready, deps, before + {h}, before + {h}, [])
  {
    ready, deps := ready0, deps0;
    QueuedAny(j, popped + ready, deps, before, before + {h});
    for i := 0 to |list|
      invariant Queued(j, popped + ready, deps, before, before + {h}, list[..i])
    {
      assert list[i] in list;
      ReleaseNext(j, popped + ready, deps, before, h, list, i);
      if deps[list[i]] != {} {
        deps := deps[list[i] := deps[list[i]] - {h}];
        if deps[list[i]] == {} {
          assert popped + ready + [list[i]] == popped + (ready + [list[i]]);
          ready := ready + [list[i]];
        }
      }
    }
    assert list[..|list|] == list;
    ReleaseEnd(j, popped + ready, deps, before, h, list);
  }

  lemma {:induction false} QueuedAny(j: Job, ever: seq<TxId>, deps: map<TxId, set<TxId>>, before: set<TxId>, after: set<TxId>)
    requires Queued(j, ever, deps, before, before, [])
    ensures Queued(j, ever, deps, before, after, [])
  {
  }

  lemma {:induction false} SortedIsQueued(j: Job, q: seq<TxId>, ready: seq<TxId>, deps: map<TxId, set<TxId>>, dependers: map<TxId, seq<TxId>>)
    requires (forall id :: id in q <==> id in j.pool) && SortedOut(j, q, ready, deps, dependers)
    ensures Queued(j, ready, deps, {}, {}, [])
    ensures forall h, id :: DependsOn(dependers, h, id) <==> Waits(j, id) && h in ParentsOf(j, id)
  {
    forall id ensures Waits(j, id) ==> id in q { }
    forall id | id in deps ensures deps[id] == ParentsOf(j, id) - {} { }
  }

  // ---------------------------------------------------------------- what fits into the block

  /** The previous transaction FetchInputs finds: in the pool for the marker, else on disk. */
  function Lookup(j: Job, v: Index, h: TxId): Option<Tx> {
    if h !in v then None
    else if v[h].pos.InMemoryPool? then (if h in j.pool then Some(j.pool[h]) else None)
    else ReadTx(j.env, v[h].pos)
  }

  function Output(j: Job, v: Index, o: OutPoint): Option<TxOut> {
    var p := Lookup(j, v, o.hash);
    if p.Some? && o.n < |p.value.vout| && o.n < |v[o.hash].spent| then Some(p.value.vout[o.n]) else None
  }

  function Outputs(j: Job, v: Index, vin: seq<OutPoint>): seq<TxOut> {
    seq(|vin|, i requires 0 <= i < |vin| => var p := Output(j, v, vin[i]); if p.Some? then p.value else TxOut(0, []))
  }

  function ValueIn(j: Job, v: Index, vin: seq<OutPoint>): int {
    if vin == [] then 0
    else
      var p := Output(j, v, vin[|vin| - 1]);
      ValueIn(j, v, vin[..|vin| - 1]) + (if p.Some? then p.value.value else 0)
  }

  /** The checks ConnectInputs makes on an input for the miner, spending apart. */
  predicate MinerInputOk(j: Job, v: Index, tx: Tx, o: OutPoint) {
    var p := Lookup(j, v, o.hash);
    && p.Some? && o.n < |p.value.vout| && o.n < |v[o.hash].spent|
    && !((p.value.IsCoinBase() || p.value.IsCoinStake()) && Immature(j.path, v[o.hash].pos))
    && p.value.time <= tx.time && MoneyRange(p.value.vout[o.n].value)
  }

  /** The block under construction: its pool transactions, mapTestPool over the database, and
      nBlockSize, nBlockSigOps and nFees. */
  datatype Work = Work(vtx: seq<Tx>, view: Index, size: nat, sigOps: nat, fees: int)

  function Start(j: Job): Work { Work([], j.db, 1000, 100, 0) }

  function SigOps(j: Job, w: Work, tx: Tx): nat {
    tx.sigOps + j.env.p2shSigOps(tx, Outputs(j, w.view, tx.vin))
  }

  /** All tests a transaction must pass to be added. */
  predicate Fits(j: Job, w: Work, tx: Tx) {
    && w.size + tx.size < j.maxSize
    && tx.time <= j.now && (j.stakeTime.Some? ==> tx.time <= j.stakeTime.value)
    && ValueIn(j, w.view, tx.vin) - SumOut(tx.vout) >= MinFee(tx, w.size, true, false, tx.size)
    && w.sigOps + SigOps(j, w, tx) < MAX_BLOCK_SIGOPS
    && Connects(j, w.view, tx)
  }

  /** FetchInputs and ConnectInputs succeed. */
  predicate Connects(j: Job, v: Index, tx: Tx) {
    && (forall i :: 0 <= i < |tx.vin| ==> MinerInputOk(j, v, tx, tx.vin[i]))
    && MoneyRange(ValueIn(j, v, tx.vin)) && ValueIn(j, v, tx.vin) >= SumOut(tx.vout)
    && (forall i :: 0 <= i < |tx.vin| ==> j.env.script(tx, i, Outputs(j, v, tx.vin)[i]))
    && Spend(v, tx.vin, InMemoryPool).Some?
  }

  function Added(j: Job, w: Work, tx: Tx): Work
    requires Connects(j, w.view, tx)
  {
    Work(w.vtx + [tx], Spend(w.view, tx.vin, InMemoryPool).value[tx.id := FreshEntry(InMemoryPool, |tx.vout|)],
         w.size + tx.size, w.sigOps + SigOps(j, w, tx), w.fees + ValueIn(j, w.view, tx.vin) - SumOut(tx.vout))
  }

  /** The tests in the order of the source; `free` is the outcome of the floating-point ones. */
  method TryAdd(j: Job, w: Work, tx: Tx, free: bool) returns (r: Option<Work>)
    ensures r == if !free && Fits(j, w, tx) then Some(Added(j, w, tx)) else None
  {
    if w.size + tx.size >= j.maxSize {
      return None;
    }
    if w.sigOps + tx.sigOps >= MAX_BLOCK_SIGOPS {
      return None;
    }
    if tx.time > j.now || (j.stakeTime.Some? && tx.time > j.stakeTime.value) {
      return None;
    }
    if free {
      return None;
    }
    if !(forall i :: 0 <= i < |tx.vin| ==> Output(j, w.view, tx.vin[i]).Some?) {
      return None;
    }
    var nTxFees := ValueIn(j, w.view, tx.vin) - SumOut(tx.vout);
    if nTxFees < MinFee(tx, w.size, true, false, tx.size) {
      return None;
    }
    if w.sigOps + SigOps(j, w, tx) >= MAX_BLOCK_SIGOPS {
      return None;
    }
    if !Connects(j, w.view, tx) {
      return None;
    }
    return Some(Added(j, w, tx));
  }

  /** The block that results from adding these transactions in turn, if each fits. */
  ghost function Built(j: Job, vtx: seq<Tx>): Option<Work> {
    if vtx == [] then Some(Start(j))
    else
      var w := Built(j, vtx[..|vtx| - 1]);
      if w.Some? && Fits(j, w.value, vtx[|vtx| - 1]) then Some(Added(j, w.value, vtx[|vtx| - 1])) else None
  }

  lemma {:induction false} BuiltNext(j: Job, w: Work, tx: Tx)
    requires Built(j, w.vtx) == Some(w) && Fits(j, w, tx)
    ensures Built(j, Added(j, w, tx).vtx) == Some(Added(j, w, tx))
  {
    assert (w.vtx + [tx])[..|w.vtx|] == w.vtx;
  }

  // ---------------------------------------------------------------- the main loop

  /** The transactions come from the pool, each once, and after all its parents. */
  ghost predicate Scheduled(j: Job, vtx: seq<Tx>) {
    && (forall k :: 0 <= k < |vtx| ==> PlacedOk(j, vtx, k))
    && (forall i, k :: 0 <= i < k < |vtx| ==> vtx[i].id != vtx[k].id)
  }

  ghost predicate PlacedOk(j: Job, vtx: seq<Tx>, k: nat)
    requires k < |vtx|
  {
    && vtx[k].id in j.pool && j.pool[vtx[k].id] == vtx[k] && Eligible(j, vtx[k])
    && Parents(j, vtx[k]) <= IdsOf(vtx[..k])
  }

  lemma {:induction false} ScheduledNext(j: Job, vtx: seq<Tx>, tx: Tx)
    requires Scheduled(j, vtx) && tx.id in j.pool && j.pool[tx.id] == tx && Eligible(j, tx)
    requires Parents(j, tx) <= IdsOf(vtx) && tx.id !in IdsOf(vtx)
    ensures Scheduled(j, vtx + [tx]) && IdsOf(vtx + [tx]) == IdsOf(vtx) + {tx.id}
  {
    var next := vtx + [tx];
    forall k | 0 <= k < |next| ensures PlacedOk(j, next, k) {
      if k < |vtx| {
        assert PlacedOk(j, vtx, k);
        assert next[..k] == vtx[..k];
      } else {
        assert next[..k] == vtx;
      }
    }
    forall i | 0 <= i < |vtx| ensures vtx[i].id != tx.id {
      assert vtx[i].id in IdsOf(vtx);
    }
    IdsAppend(vtx, tx);
  }

  lemma {:induction false} IdsAppend(vtx: seq<Tx>, tx: Tx)
    ensures IdsOf(vtx + [tx]) == IdsOf(vtx) + {tx.id}
  {
    var next := vtx + [tx];
    forall x ensures x in IdsOf(next) <==> x in IdsOf(vtx) + {tx.id} {
      if x in IdsOf(vtx) {
        var k :| 0 <= k < |vtx| && vtx[k].id == x;
        assert next[k].id == x;
      }
      assert next[|vtx|] == tx;
    }
  }

  function WithoutAt<T>(s: seq<T>, i: nat): seq<T>
    requires i < |s|
  {
    s[..i] + s[i + 1..]
  }

  /** Taking an entry off the queue. */
  lemma {:induction false} Pop(j: Job, popped: seq<TxId>, ready: seq<TxId>, i: nat, deps: map<TxId, set<TxId>>, placed: set<TxId>)
    requires i < |ready| && Queued(j, popped + ready, deps, placed, placed, [])
    ensures Queued(j, popped + [ready[i]] + WithoutAt(ready, i), deps, placed, placed, [])
    ensures ready[i] !in popped && Waits(j, ready[i]) && ParentsOf(j, ready[i]) <= placed
  {
    var ever, next := popped + ready, popped + [ready[i]] + WithoutAt(ready, i);
    var p := |popped|;
    assert ever[p + i] == ready[i];
    forall a | 0 <= a < |next|
      ensures next[a] == ever[if a < p then a else if a == p then p + i else if a <= p + i then a - 1 else a]
    { }
    forall x ensures x in next <==> x in ever {
      assert x in ready <==> x in ready[..i] || x == ready[i] || x in ready[i + 1..] by {
        assert ready == ready[..i] + [ready[i]] + ready[i + 1..];
      }
    }
    forall a | 0 <= a < p ensures popped[a] != ready[i] {
      assert ever[a] == popped[a] && ever[a] != ever[p + i];
    }
    assert ready[i] in ever;
  }

  lemma {:induction false} DistinctBound(s: seq<int>, a: set<int>)
    requires Distinct(s) && forall x :: x in s ==> x in a
    ensures |s| <= |a|
  {
    if s != [] {
      var k := |s| - 1;
      var x := s[k];
      assert x in s && s == s[..k] + [x];
      assert x in a && x !in s[..k];
      DistinctBound(s[..k], a - {x});
    }
  }

  /** There is room for one more: what is popped comes from the pool, each once. */
  lemma {:induction false} PoppedBound(j: Job, popped: seq<TxId>, ready: seq<TxId>, deps: map<TxId, set<TxId>>, placed: set<TxId>)
    requires Queued(j, popped + ready, deps, placed, placed, [])
    ensures |popped| + |ready| <= |j.pool|
  {
    forall x | x in popped + ready ensures x in j.pool.Keys {
      assert Waits(j, x);
    }
    DistinctBound(popped + ready, j.pool.Keys);
  }

  /** Everything in the block was once in the queue. */
  ghost predicate FromQueue(vtx: seq<Tx>, popped: seq<TxId>) {
    forall id :: id in IdsOf(vtx) ==> id in popped
  }

  /** What trying these ids in turn builds: the n-th is added unless the floating-point tests skip it
      or it does not fit what is there by then. */
  ghost function Tried(j: Job, popped: seq<TxId>, free: nat -> bool): Work {
    if popped == [] then Start(j)
    else
      var n := |popped| - 1;
      var w := Tried(j, popped[..n], free);
      if popped[n] in j.pool && !free(n) && Fits(j, w, j.pool[popped[n]]) then Added(j, w, j.pool[popped[n]]) else w
  }

  /** The n-th id comes after all its parents. */
  ghost predicate InTurn(j: Job, popped: seq<TxId>, free: nat -> bool) {
    forall n :: 0 <= n < |popped| ==> ParentsOf(j, popped[n]) <= IdsOf(Tried(j, popped[..n], free).vtx)
  }

  lemma {:induction false} InTurnNext(j: Job, popped: seq<TxId>, free: nat -> bool, id: TxId)
    requires InTurn(j, popped, free) && ParentsOf(j, id) <= IdsOf(Tried(j, popped, free).vtx)
    ensures InTurn(j, popped + [id], free)
  {
    var next := popped + [id];
    forall n | 0 <= n < |next| ensures ParentsOf(j, next[n]) <= IdsOf(Tried(j, next[..n], free).vtx) {
      assert next[..n] == popped[..n] && popped[..|popped|] == popped;
    }
  }

  /** The ids tried are the eligible transactions whose parents are all in the block, each once. */
  ghost predicate Exhausted(j: Job, popped: seq<TxId>, vtx: seq<Tx>) {
    Distinct(popped) && forall id :: id in popped <==> Waits(j, id) && ParentsOf(j, id) <= IdsOf(vtx)
  }

  /** The n-th id's turn ends with its transaction in the block. */
  ghost predicate AddedAt(j: Job, popped: seq<TxId>, free: nat -> bool, n: nat)
    requires n < |popped|
  {
    popped[n] in j.pool && !free(n) && Fits(j, Tried(j, popped[..n], free), j.pool[popped[n]])
  }

  lemma {:induction false} IdsAfterTry(j: Job, popped: seq<TxId>, free: nat -> bool)
    requires Closed(j) && popped != []
    ensures var n := |popped| - 1;
      var before := IdsOf(Tried(j, popped[..n], free).vtx);
      IdsOf(Tried(j, popped, free).vtx) == if AddedAt(j, popped, free, n) then before + {popped[n]} else before
  {
    var n := |popped| - 1;
    var w := Tried(j, popped[..n], free);
    if AddedAt(j, popped, free, n) {
      var tx := j.pool[popped[n]];
      assert tx.id == popped[n];
      assert Tried(j, popped, free).vtx == w.vtx + [tx];
      IdsAppend(w.vtx, tx);
    } else {
      assert Tried(j, popped, free) == w;
    }
  }

  lemma {:induction false} OnlyTried(j: Job, popped: seq<TxId>, free: nat -> bool, id: TxId)
    requires Closed(j) && id in IdsOf(Tried(j, popped, free).vtx)
    ensures id in popped
  {
    if popped != [] {
      var n := |popped| - 1;
      IdsAfterTry(j, popped, free);
      if id != popped[n] {
        OnlyTried(j, popped[..n], free, id);
      }
    }
  }

  lemma {:induction false} AddedPrefix(j: Job, popped: seq<TxId>, free: nat -> bool, k: nat, n: nat)
    requires n < k <= |popped|
    ensures AddedAt(j, popped[..k], free, n) == AddedAt(j, popped, free, n)
  {
    assert popped[..k][..n] == popped[..n];
  }

  lemma {:induction false} TryOfAnother(j: Job, popped: seq<TxId>, free: nat -> bool, id: TxId)
    requires Closed(j) && popped != [] && id != popped[|popped| - 1]
    ensures id in IdsOf(Tried(j, popped, free).vtx) <==> id in IdsOf(Tried(j, popped[..|popped| - 1], free).vtx)
  {
    IdsAfterTry(j, popped, free);
  }

  /** What is tried is in the final block exactly if, when its turn came, it was not skipped and fitted
      what was in the block by then. */
  lemma {:induction false} LeftOutFailed(j: Job, popped: seq<TxId>, free: nat -> bool, n: nat)
    requires Closed(j) && Distinct(popped) && n < |popped|
    ensures popped[n] in IdsOf(Tried(j, popped, free).vtx) <==> AddedAt(j, popped, free, n)
  {
    var k := |popped| - 1;
    if n < k {
      LeftOutFailed(j, popped[..k], free, n);
      AddedPrefix(j, popped, free, k, n);
      TryOfAnother(j, popped, free, popped[n]);
    } else {
      LastAdded(j, popped, free);
    }
  }

  lemma {:induction false} LastAdded(j: Job, popped: seq<TxId>, free: nat -> bool)
    requires Closed(j) && Distinct(popped) && popped != []
    ensures popped[|popped| - 1] in IdsOf(Tried(j, popped, free).vtx) <==> AddedAt(j, popped, free, |popped| - 1)
  {
    var k := |popped| - 1;
    IdsAfterTry(j, popped, free);
    if popped[k] in IdsOf(Tried(j, popped[..k], free).vtx) {
      OnlyTried(j, popped[..k], free, popped[k]);
    }
  }

  /** The state of the priority loop, `popped` being the ids that have left the queue. */
  ghost predicate Underway(j: Job, popped: seq<TxId>, free: nat -> bool, w: Work, ready: seq<TxId>, deps: map<TxId, set<TxId>>) {
    && w == Tried(j, popped, free) && InTurn(j, popped, free)
    && Built(j, w.vtx) == Some(w) && Scheduled(j, w.vtx) && FromQueue(w.vtx, popped)
    && Queued(j, popped + ready, deps, IdsOf(w.vtx), IdsOf(w.vtx), [])
  }

  lemma {:induction false} LoopStart(j: Job, free: nat -> bool, ready: seq<TxId>, deps: map<TxId, set<TxId>>)
    requires Queued(j, ready, deps, {}, {}, [])
    ensures Underway(j, [], free, Start(j), ready, deps)
  {
    assert [] + ready == ready && IdsOf([]) == {};
  }

  /** What the next id is like, and the state if its transaction is left out. */
  lemma {:induction false} LoopPop(j: Job, popped: seq<TxId>, free: nat -> bool, w: Work, ready: seq<TxId>, deps: map<TxId, set<TxId>>, i: nat)
    requires Underway(j, popped, free, w, ready, deps) && i < |ready|
    ensures |popped| < |j.pool| && Waits(j, ready[i]) && ready[i] !in popped && ready[i] !in IdsOf(w.vtx)
    ensures !AddedAt(j, popped + [ready[i]], free, |popped|) ==> Underway(j, popped + [ready[i]], free, w, WithoutAt(ready, i), deps)
    ensures ParentsOf(j, ready[i]) <= IdsOf(w.vtx) && InTurn(j, popped + [ready[i]], free)
    ensures Queued(j, popped + [ready[i]] + WithoutAt(ready, i), deps, IdsOf(w.vtx), IdsOf(w.vtx), [])
  {
    PoppedBound(j, popped, ready, deps, IdsOf(w.vtx));
    Pop(j, popped, ready, i, deps, IdsOf(w.vtx));
    InTurnNext(j, popped, free, ready[i]);
    assert (popped + [ready[i]])[..|popped|] == popped;
  }

  /** The state if the transaction is added and its dependers are released. */
  lemma {:induction false} LoopAdd(j: Job, popped: seq<TxId>, free: nat -> bool, w: Work, id: TxId, ready: seq<TxId>, deps: map<TxId, set<TxId>>)
    requires Closed(j) && w == Tried(j, popped, free) && InTurn(j, popped + [id], free)
    requires Built(j, w.vtx) == Some(w) && Scheduled(j, w.vtx) && FromQueue(w.vtx, popped)
    requires Waits(j, id) && ParentsOf(j, id) <= IdsOf(w.vtx) && id !in IdsOf(w.vtx) && !free(|popped|) && Fits(j, w, j.pool[id])
    requires Queued(j, popped + [id] + ready, deps, IdsOf(w.vtx) + {id}, IdsOf(w.vtx) + {id}, [])
    ensures Underway(j, popped + [id], free, Added(j, w, j.pool[id]), ready, deps)
  {
    var next := popped + [id];
    assert next[..|popped|] == popped;
    BuiltNext(j, w, j.pool[id]);
    ScheduledNext(j, w.vtx, j.pool[id]);
  }

  /** mapDependers[id], which operator[] creates where it is missing. */
  function DependersOf(dependers: map<TxId, seq<TxId>>, id: TxId): (list: seq<TxId>)
    ensures forall x :: x in list <==> DependsOn(dependers, id, x)
  {
    if id in dependers then dependers[id] else []
  }

  lemma {:induction false} QueueEmpty(j: Job, popped: seq<TxId>, free: nat -> bool, w: Work, deps: map<TxId, set<TxId>>)
    requires Underway(j, popped, free, w, [], deps)
    ensures Exhausted(j, popped, w.vtx)
  {
    assert popped + [] == popped;
    var placed := IdsOf(w.vtx);
    forall id ensures Placed(placed, placed, [], id) == placed { }
  }

  /** The priority loop: `choose` says which entry of the queue comes next, `free` whether the
      floating-point tests skip it.  `popped` are the ids in the order they leave the queue. */
  method Assemble(j: Job, choose: Draws, free: nat -> bool) returns (w: Work, ghost popped: seq<TxId>)
    requires Closed(j)
    ensures Built(j, w.vtx) == Some(w) && Scheduled(j, w.vtx)
    ensures w == Tried(j, popped, free) && InTurn(j, popped, free) && Exhausted(j, popped, w.vtx)
  {
    var ready, deps, dependers := SortOut(j);
    SortedIsQueued(j, Ascending(j.pool.Keys), ready, deps, dependers);
    w, popped := Start(j), [];
    LoopStart(j, free, ready, deps);
    var n := 0;
    while ready != []
      invariant n == |popped| && Underway(j, popped, free, w, ready, deps)
      decreases |j.pool| - |popped|
    {
      var i := RandInt(choose(n), |ready|);
      var id := ready[i];
      LoopPop(j, popped, free, w, ready, deps, i);
      assert (popped + [id])[..n] == popped;
      ready := WithoutAt(ready, i);
      var next := TryAdd(j, w, j.pool[id], free(n));
      if next.Some? {
        ready, deps := Release(j, id, DependersOf(dependers, id), ready, deps, popped + [id], IdsOf(w.vtx));
        LoopAdd(j, popped, free, w, id, ready, deps);
        w := next.value;
      }
      popped := popped + [id];
      n := n + 1;
    }
    QueueEmpty(j, popped, free, w, deps);
  }
}
