/** Why no transaction id returns on a chain: AcceptBlock demands of every coinbase that it starts with
    the height of its block (main.cpp), and any other transaction would spend its inputs again. */
module TransactionIds {
  import opened Basics
  import opened BlockTree
  import opened Transactions
  import opened Ledger
  import opened LedgerUndo
  import opened LedgerReplay
  import opened BranchRollback
  import opened BigNum

  // ---------------------------------------------------------------- the height in a coinbase

  /** CScript() << n: an opcode for 1 to 16, else the bytes of the number after their count (with
      OP_PUSHDATA1 from 76 bytes on, which no 32-bit height needs). */
  function HeightScript(n: nat): seq<nat> {
    if 1 <= n <= 16 then [0x50 + n] else Push(GetVch(n))
  }

  /** A script starts with one height only. */
  lemma {:induction false} OneHeight(a: nat, b: nat, script: seq<nat>)
    requires HeightScript(a) <= script && HeightScript(b) <= script
    ensures a == b
  {
    assert HeightScript(a)[0] == script[0] == HeightScript(b)[0];
    if !(1 <= a <= 16) && !(1 <= b <= 16) {
      PushedBytes(GetVch(a), script);
      PushedBytes(GetVch(b), script);
      VchRoundTrip(a);
      VchRoundTrip(b);
    }
  }

  function Push(vch: seq<nat>): seq<nat> {
    (if |vch| < 0x4c then [|vch|] else [0x4c, |vch|]) + vch
  }

  /** The bytes after a count are determined by the script. */
  lemma {:induction false} PushedBytes(vch: seq<nat>, script: seq<nat>)
    requires Push(vch) <= script
    ensures |script| > 0 && (script[0] == 0x4c ==> |script| > 1)
    ensures var k, n := if script[0] == 0x4c then 2 else 1, if script[0] == 0x4c then script[1] else script[0];
      k + n <= |script| && vch == script[k..k + n]
  {
    var k := if |vch| < 0x4c then 1 else 2;
    assert Push(vch)[0] == script[0] && (k == 2 ==> Push(vch)[1] == script[1]);
    assert Push(vch)[k..] == vch && Push(vch) == script[..k + |vch|];
  }

  /** The bytes as a number, the lowest first. */
  ghost function LittleEndian(s: seq<nat>): nat {
    if s == [] then 0 else s[0] + 256 * LittleEndian(s[1..])
  }

  lemma {:induction false} LittleEndianReversed(s: seq<nat>)
    ensures LittleEndian(Reversed(s)) == ValueBE(s)
  {
    if s != [] {
      LittleEndianReversed(s[..|s| - 1]);
      assert Reversed(s)[1..] == Reversed(s[..|s| - 1]);
    }
  }

  lemma {:induction false} FirstByteNeeded(x: nat, n: nat)
    requires n > 1 && MpiBound(n - 1) <= x < MpiBound(n)
    ensures BytesBE(x, n)[0] != 0 || BytesBE(x, n)[1] >= 0x80
  {
    if n > 2 {
      FirstByteNeeded(x / 256, n - 1);
      assert BytesBE(x, n)[..n - 1] == BytesBE(x / 256, n - 1);
    } else {
      SmallBytes(x, 2);
    }
  }

  /** A height is written as one opcode from 1 to 16, and otherwise as the count and the bytes of the number,
      the lowest first, no more of them than leave the highest bit of the last one clear. */
  lemma {:induction false} HeightIsWritten(n: nat)
    requires n < 0x8000_0000
    ensures var s := HeightScript(n); var k := |s| - 1;
      if 1 <= n <= 16 then s == [80 + n]
      else
        && s[0] == k <= 4 && LittleEndian(s[1..]) == n
        && (k > 0 ==> s[k] < 0x80) && (k > 1 ==> s[k] != 0 || s[k - 1] >= 0x80)
  {
    var k := MpiSize(n);
    MpiSizeFits(n);
    MpiBoundBelowPow(k);
    ValueOfBytes(n, k);
    LittleEndianReversed(Mpi(n));
    MpiSizeMonotone(n, 0x7fff_ffff);
    assert MpiSize(0x7fff_ffff) == 4 by {
      assert MpiBound(3) <= 0x7fff_ffff < MpiBound(4) by {
        assert Pow256(0) == 1 && Pow256(1) == 0x100 && Pow256(2) == 0x1_0000 && Pow256(3) == 0x100_0000;
      }
      MpiSizeIs(0x7fff_ffff, 4);
    }
    assert GetVch(n) == Reversed(Mpi(n));
    if n > 0 {
      FirstByte(n, k);
    }
    if k > 1 {
      FirstByteNeeded(n, k);
    }
    assert Push(GetVch(n))[1..] == GetVch(n);
  }

  /** What AcceptBlock demands of the coinbase of a block at height h. */
  ghost predicate HeightRule(env: Env, b: BlockId, h: nat) {
    b in env.disk && env.disk[b].vtx != [] && HeightScript(h) <= env.disk[b].vtx[0].scriptSig
  }

  ghost predicate HeightsOk(env: Env, path: seq<BlockId>) {
    forall i :: 0 < i < |path| ==> HeightRule(env, path[i], i)
  }

  // ---------------------------------------------------------------- ids

  predicate TxAt(env: Env, b: BlockId, m: int) { b in env.disk && 0 <= m < |env.disk[b].vtx| }

  /** The transaction hash has no collision among the blocks on disk. */
  ghost predicate SameIdSameTx(env: Env) {
    forall a, b, m, n :: TxAt(env, a, m) && TxAt(env, b, n) && env.disk[a].vtx[m].id == env.disk[b].vtx[n].id ==>
      env.disk[a].vtx[m] == env.disk[b].vtx[n]
  }

  // ---------------------------------------------------------------- what is spent stays spent

  /** Everything that the transaction spends is marked. */
  ghost predicate TxSpent(v: Index, tx: Tx) {
    forall o :: o in Spends(tx) ==> SpentIn(v, o)
  }

  ghost predicate TxsSpent(v: Index, vtx: seq<Tx>, n: nat)
    requires n <= |vtx|
  {
    forall m :: 0 <= m < n ==> TxSpent(v, vtx[m])
  }

  /** Everything that the blocks of the path spend is marked. */
  ghost predicate PathSpent(env: Env, path: seq<BlockId>, v: Index) {
    forall i :: 0 < i < |path| ==> BlockSpent(env, path[i], v)
  }

  ghost predicate BlockSpent(env: Env, b: BlockId, v: Index) {
    b in env.disk && TxsSpent(v, env.disk[b].vtx, |env.disk[b].vtx|)
  }

  ghost predicate KeepsSpent(v: Index, w: Index) {
    forall o :: SpentIn(v, o) ==> SpentIn(w, o)
  }

  /** Connecting a new transaction marks its inputs, which were unmarked, and keeps all marks. */
  lemma {:induction false} NewTxSpends(env: Env, path: seq<BlockId>, db: Index, acc: Acc, tx: Tx, pos: DiskPos)
    requires ConnectTx(env, path, db, acc, tx, pos).Some? && tx.id !in acc.view
    ensures var w := ConnectTx(env, path, db, acc, tx, pos).value.view;
      KeepsSpent(acc.view, w) && TxSpent(w, tx)
    ensures forall o :: o in Spends(tx) ==> !SpentIn(acc.view, o)
  {
    ConnectTxView(env, path, db, acc, tx, pos);
    SpendSlots(acc.view, Spends(tx), pos);
  }

  // ---------------------------------------------------------------- every block of a replay is checked

  lemma {:induction false} ReplayChecked(env: Env, path: seq<BlockId>, i: nat)
    requires 0 < i < |path| && Replay(env, path).Some?
    ensures path[i] in env.disk && CheckBlock(env, env.disk[path[i]])
  {
    ReplayPrefix(env, path, i + 1);
    ReplayStep(env, path[..i + 1]);
  }

  /** A transaction of a checked block is its coinbase, in front, or spends something. */
  lemma {:induction false} CoinBaseInFront(env: Env, blk: Block, m: nat)
    requires CheckBlock(env, blk) && m < |blk.vtx|
    ensures blk.vtx[m].IsCoinBase() <==> m == 0
    ensures !blk.vtx[m].IsCoinBase() ==> Spends(blk.vtx[m]) != []
  {
    assert CheckTransaction(blk.vtx[m]);
  }

  lemma {:induction false} FirstIn<T>(s: seq<T>)
    ensures s != [] ==> exists x :: x in s
  {
    assert s != [] ==> s[0] in s;
  }

  lemma {:induction false} SpendsNothing(v: Index, tx: Tx)
    requires TxSpent(v, tx) && forall o :: o in Spends(tx) ==> !SpentIn(v, o)
    ensures Spends(tx) == []
  {
    FirstIn(Spends(tx));
  }

  /** A transaction that connects after the blocks of `path` is in none of them. */
  lemma {:induction false} NotSeenBefore(env: Env, path: seq<BlockId>, b: BlockId, n: nat, v: Index, i: nat)
    requires SameIdSameTx(env) && HeightsOk(env, path + [b]) && TxAt(env, b, n) && CheckBlock(env, env.disk[b])
    requires 0 < i < |path| && TxAt(env, path[i], 0) && CheckBlock(env, env.disk[path[i]]) && BlockSpent(env, path[i], v)
    requires forall o :: o in Spends(env.disk[b].vtx[n]) ==> !SpentIn(v, o)
    ensures !Contains(env, path[i], env.disk[b].vtx[n].id)
  {
    var a, tx := path[i], env.disk[b].vtx[n];
    if m :| 0 <= m < |env.disk[a].vtx| && env.disk[a].vtx[m].id == tx.id {
      assert TxAt(env, a, m);
      assert env.disk[a].vtx[m] == tx && TxSpent(v, tx);
      assert (path + [b])[i] == a && (path + [b])[|path|] == b;
      assert HeightRule(env, a, i) && HeightRule(env, b, |path|);
      SpendsNothing(v, tx);
      CoinBaseInFront(env, env.disk[a], m);
      CoinBaseInFront(env, env.disk[b], n);
      if tx.IsCoinBase() {
        OneHeight(i, |path|, tx.scriptSig);
      }
      assert false;
    }
  }

  // ---------------------------------------------------------------- one more block

  /** No block of the path holds the id. */
  ghost predicate NewOn(env: Env, path: seq<BlockId>, id: TxId) {
    forall i :: 0 < i < |path| ==> !Contains(env, path[i], id)
  }

  lemma {:induction false} OneMoreSpent(v: Index, w: Index, vtx: seq<Tx>, n: nat)
    requires 0 < n <= |vtx| && TxsSpent(v, vtx, n - 1) && KeepsSpent(v, w) && TxSpent(w, vtx[n - 1])
    ensures TxsSpent(w, vtx, n)
  {
    forall m | 0 <= m < n ensures TxSpent(w, vtx[m]) {
      assert m < n - 1 ==> TxSpent(v, vtx[m]);
    }
  }

  /** The setting: block `b` after `path`, whose replay is `db`. */
  ghost predicate NextBlock(env: Env, path: seq<BlockId>, b: BlockId, db: Index) {
    && SameIdSameTx(env) && HeightsOk(env, path + [b]) && path != [] && Replay(env, path) == Some(db)
    && PathSpent(env, path, db) && b in env.disk && CheckBlock(env, env.disk[b])
  }

  /** The block's first n transactions are new, and what is spent, by them or before, is marked in `w`. */
  ghost predicate FirstAreNew(env: Env, path: seq<BlockId>, b: BlockId, db: Index, n: nat, w: Index)
    requires b in env.disk && n <= |env.disk[b].vtx|
  {
    && (forall m :: 0 <= m < n ==> NewOn(env, path, env.disk[b].vtx[m].id))
    && KeepsSpent(db, w) && TxsSpent(w, env.disk[b].vtx, n)
  }

  lemma {:induction false} OneMoreIsNew(env: Env, path: seq<BlockId>, b: BlockId, db: Index, n: nat, acc: Acc, next: Acc)
    requires NextBlock(env, path, b, db) && n < |env.disk[b].vtx| && FirstAreNew(env, path, b, db, n, acc.view)
    requires ConnectTxs(env, path + [b], db, b, env.disk[b].vtx, n) == Some(acc)
    requires ConnectTxs(env, path + [b], db, b, env.disk[b].vtx, n + 1) == Some(next)
    ensures FirstAreNew(env, path, b, db, n + 1, next.view)
  {
    var vtx := env.disk[b].vtx;
    ConnectTxsStep(env, path + [b], db, b, vtx, n + 1);
    LastIsNew(env, path, b, db, n, acc);
    NewTxSpends(env, path + [b], db, acc, vtx[n], InBlock(b, n));
    OneMoreSpent(acc.view, next.view, vtx, n + 1);
  }

  lemma {:induction false} FewerConnect(env: Env, path: seq<BlockId>, db: Index, b: BlockId, vtx: seq<Tx>, n: nat) returns (acc: Acc)
    requires n < |vtx| && ConnectTxs(env, path, db, b, vtx, n + 1).Some?
    ensures ConnectTxs(env, path, db, b, vtx, n) == Some(acc)
  {
    ConnectTxsStep(env, path, db, b, vtx, n + 1);
    acc := ConnectTxs(env, path, db, b, vtx, n).value;
  }

  /** The first n transactions of the block are new, and spent things stay spent. */
  lemma {:induction false} TxsAreNew(env: Env, path: seq<BlockId>, b: BlockId, db: Index, n: nat, acc: Acc)
    requires NextBlock(env, path, b, db) && n <= |env.disk[b].vtx|
    requires ConnectTxs(env, path + [b], db, b, env.disk[b].vtx, n) == Some(acc)
    ensures FirstAreNew(env, path, b, db, n, acc.view)
  {
    if n > 0 {
      var before := FewerConnect(env, path + [b], db, b, env.disk[b].vtx, n - 1);
      TxsAreNew(env, path, b, db, n - 1, before);
      OneMoreIsNew(env, path, b, db, n - 1, before, acc);
    } else {
      NoneYet(env, path, b, db, acc);
    }
  }

  lemma {:induction false} NoneYet(env: Env, path: seq<BlockId>, b: BlockId, db: Index, acc: Acc)
    requires b in env.disk && ConnectTxs(env, path + [b], db, b, env.disk[b].vtx, 0) == Some(acc)
    ensures FirstAreNew(env, path, b, db, 0, acc.view)
  {
  }

  /** The next transaction is not in an earlier block, hence not indexed. */
  lemma {:induction false} LastIsNew(env: Env, path: seq<BlockId>, b: BlockId, db: Index, n: nat, acc: Acc)
    requires NextBlock(env, path, b, db) && n < |env.disk[b].vtx|
    requires ConnectTxs(env, path + [b], db, b, env.disk[b].vtx, n) == Some(acc) && KeepsSpent(db, acc.view)
    requires ConnectTx(env, path + [b], db, acc, env.disk[b].vtx[n], InBlock(b, n)).Some?
    ensures NewOn(env, path, env.disk[b].vtx[n].id) && env.disk[b].vtx[n].id !in acc.view
  {
    var vtx := env.disk[b].vtx;
    ConnectTxView(env, path + [b], db, acc, vtx[n], InBlock(b, n));
    SpendSlots(acc.view, Spends(vtx[n]), InBlock(b, n));
    forall i | 0 < i < |path| ensures !Contains(env, path[i], vtx[n].id) {
      ReplayChecked(env, path, i);
      assert BlockSpent(env, path[i], db);
      NotSeenBefore(env, path, b, n, db, i);
    }
    ReplayLacks(env, path, vtx[n].id);
    KeysAfterConnect(env, path + [b], db, b, vtx, n, vtx[n].id);
  }

  lemma {:induction false} OneMoreBlock(env: Env, q: seq<BlockId>, b: BlockId, db: Index, acc: Acc)
    requires NextBlock(env, q, b, db) && UniqueAlong(env, q) && ConnectBlock(env, q + [b], db) == Some(acc)
    ensures UniqueAlong(env, q + [b]) && PathSpent(env, q + [b], acc.view)
  {
    TxsAreNew(env, q, b, db, |env.disk[b].vtx|, acc);
    UniqueOneMore(env, q, b);
    var path := q + [b];
    forall i | 0 < i < |path| ensures BlockSpent(env, path[i], acc.view) {
      assert i < |q| ==> path[i] == q[i] && BlockSpent(env, q[i], db);
    }
  }

  /** On every chain whose coinbases carry their heights and which replays, no transaction id occurs
      twice, short of a collision of the transaction hash. */
  lemma {:induction false} IdsAreUnique(env: Env, path: seq<BlockId>)
    requires path != [] && Replay(env, path).Some? && SameIdSameTx(env) && HeightsOk(env, path)
    ensures UniqueAlong(env, path) && PathSpent(env, path, Replay(env, path).value)
  {
    if |path| > 1 {
      var q, b, db := LastBlock(env, path);
      HeightsOnPrefix(env, path, |q|);
      IdsAreUnique(env, q);
      OneMoreBlock(env, q, b, db, ConnectBlock(env, path, db).value);
    }
  }

  lemma {:induction false} LastBlock(env: Env, path: seq<BlockId>) returns (q: seq<BlockId>, b: BlockId, db: Index)
    requires |path| >= 2 && Replay(env, path).Some?
    ensures path == q + [b] && q == path[..|q|] && q != [] && Replay(env, q) == Some(db)
    ensures b in env.disk && CheckBlock(env, env.disk[b])
    ensures ConnectBlock(env, path, db).Some? && ConnectBlock(env, path, db).value.view == Replay(env, path).value
  {
    ReplayStep(env, path);
    q, b := path[..|path| - 1], path[|path| - 1];
    db := Replay(env, q).value;
  }

  lemma {:induction false} HeightsOnPrefix(env: Env, path: seq<BlockId>, k: nat)
    requires k <= |path| && HeightsOk(env, path)
    ensures HeightsOk(env, path[..k])
  {
    forall i | 0 < i < k ensures HeightRule(env, path[..k][i], i) {
      assert path[..k][i] == path[i];
    }
  }

  lemma {:induction false} UniqueOneMore(env: Env, q: seq<BlockId>, b: BlockId)
    requires UniqueAlong(env, q) && b in env.disk
    requires forall m :: 0 <= m < |env.disk[b].vtx| ==> NewOn(env, q, env.disk[b].vtx[m].id)
    ensures UniqueAlong(env, q + [b])
  {
    var path := q + [b];
    forall i, j | 0 < i < j < |path| ensures NoneRepeated(env, path[i], path[j]) {
      assert path[i] == q[i];
      assert j < |q| ==> path[j] == q[j];
    }
  }

  /** So rolling back the replay of such a chain always succeeds, and gives the shorter replay. */
  lemma {:induction false} RollbackSucceeds(env: Env, path: seq<BlockId>, k: nat)
    requires 1 <= k <= |path| && Replay(env, path).Some? && SameIdSameTx(env) && HeightsOk(env, path)
    ensures Rollback(env, path, k, Replay(env, path).value).Some?
    ensures Rollback(env, path, k, Replay(env, path).value) == Replay(env, path[..k])
  {
    IdsAreUnique(env, path);
    RollbackExact(env, path, k);
    ReplayPrefix(env, path, k);
  }
}
