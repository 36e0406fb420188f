/** A run in which a postponed block fails: a checkpoint moves the node to a branch whose longer
    continuation it already knows but does not adopt, and the next block on that does not connect. */
module PassedOverBranch {
  import opened Basics
  import opened BlockTree
  import opened Transactions
  import opened Ledger
  import opened TransactionIds
  import opened BestChainRuns
  import opened NodeRuns
  import SyncCheckpoints

  // ---------------------------------------------------------------- blocks of one coinbase

  /** A coinbase that carries its height. */
  function CoinBase(id: TxId, value: int, height: nat): Tx {
    Tx(id, 0, [OutPoint(0, 0xffff_ffff)], [TxOut(value, [1])], 0, 0, HeightScript(height) + [0])
  }

  function PlainBlock(id: TxId, value: int, height: nat): Block {
    Block(0, 0, [CoinBase(id, value, height)])
  }

  lemma {:induction false} CoinBaseOut(id: TxId, value: int, height: nat)
    ensures SumOut(CoinBase(id, value, height).vout) == value
  {
    assert CoinBase(id, value, height).vout[..0] == [];
  }

  /** Such a block connects exactly if it claims at most the reward. */
  lemma {:induction false} PlainBlockConnects(env: Env, path: seq<BlockId>, id: TxId, value: int, height: nat, db: Index)
    requires |path| >= 2 && path[|path| - 1] in env.disk && env.disk[path[|path| - 1]] == PlainBlock(id, value, height)
    requires env.otherChecks(PlainBlock(id, value, height)) && MoneyRange(value) && MayOverwrite(db, id)
    ensures ConnectBlock(env, path, db).Some? <==> value <= ProofOfWorkReward(0, |path| - 1)
    ensures ConnectBlock(env, path, db).Some? ==>
      ConnectBlock(env, path, db).value.view == db[id := FreshEntry(InBlock(path[|path| - 1], 0), 1)]
  {
    var b := path[|path| - 1];
    var vtx := PlainBlock(id, value, height).vtx;
    CoinBaseOut(id, value, height);
    assert CheckTransaction(vtx[0]);
    assert CheckBlock(env, PlainBlock(id, value, height));
    assert ConnectTxs(env, path, db, b, vtx, 0) == Some(Acc(db, 0, 0, 0, 0));
    ConnectTxsStep(env, path, db, b, vtx, 1);
  }

  /** Replaying one block more. */
  lemma {:induction false} ReplayNext(env: Env, path: seq<BlockId>, b: BlockId, db: Index)
    requires path != [] && Replay(env, path) == Some(db)
    ensures var acc := ConnectBlock(env, path + [b], db);
      Replay(env, path + [b]) == if acc.None? then None else Some(acc.value.view)
  {
    assert (path + [b])[..|path|] == path;
    assert ReplayLast(env, path + [b]) == ConnectBlock(env, path + [b], db);
  }

  // ---------------------------------------------------------------- the blocks of the run

  /** Blocks 1 and 2 on genesis 0, and 3, 4 and 5 on genesis; transaction ids are ten times the block's.
      Block 5 pays more than the reward, which CheckBlock does not see. */
  ghost predicate IsExample(env: Env) {
    && env.disk == map[1 := PlainBlock(10, 0, 1), 2 := PlainBlock(20, 0, 2), 3 := PlainBlock(30, 0, 1), 4 := PlainBlock(40, 0, 2),
                       5 := PlainBlock(50, SUBSIDY + 1, 3)]
    && forall blk :: env.otherChecks(blk)
  }

  lemma {:induction false} ExampleExists() returns (env: Env)
    ensures IsExample(env)
  {
    env := Env(map[1 := PlainBlock(10, 0, 1), 2 := PlainBlock(20, 0, 2), 3 := PlainBlock(30, 0, 1), 4 := PlainBlock(40, 0, 2),
                   5 := PlainBlock(50, SUBSIDY + 1, 3)], (t, i, o) => true, (t, o) => 0, b => true);
  }

  lemma {:induction false} BlockAt(env: Env, b: BlockId)
    requires IsExample(env) && b in env.disk
    ensures 1 <= b <= 5 && |env.disk[b].vtx| == 1 && env.disk[b].vtx[0].id == 10 * b
  {
  }

  lemma {:induction false} NoCollision(env: Env)
    requires IsExample(env)
    ensures SameIdSameTx(env)
  {
    forall a, b, m, n | TxAt(env, a, m) && TxAt(env, b, n) && env.disk[a].vtx[m].id == env.disk[b].vtx[n].id
      ensures env.disk[a].vtx[m] == env.disk[b].vtx[n]
    {
      BlockAt(env, a);
      BlockAt(env, b);
    }
  }

  lemma {:induction false} Heights(env: Env, b: BlockId, h: nat)
    requires IsExample(env) && 1 <= b <= 5 && h == (if b <= 2 then b else b - 2)
    ensures HeightRule(env, b, h)
  {
  }

  /** One more plain block that claims nothing. */
  lemma {:induction false} PlainNext(env: Env, path: seq<BlockId>, b: BlockId, height: nat)
    requires path != [] && Replay(env, path).Some? && 10 * b !in Replay(env, path).value
    requires b in env.disk && env.disk[b] == PlainBlock(10 * b, 0, height) && forall blk :: env.otherChecks(blk)
    ensures Replay(env, path + [b]).Some? && Replay(env, path + [b]).value.Keys == Replay(env, path).value.Keys + {10 * b}
  {
    var db := Replay(env, path).value;
    PlainBlockConnects(env, path + [b], 10 * b, 0, height, db);
    ReplayNext(env, path, b, db);
  }

  lemma {:induction false} ReplaysFirst(env: Env)
    requires IsExample(env)
    ensures Replay(env, [0] + [1]).Some? && Replay(env, [0] + [1] + [2]).Some?
  {
    PlainNext(env, [0], 1, 1);
    PlainNext(env, [0] + [1], 2, 2);
  }

  lemma {:induction false} ReplaysSecond(env: Env)
    requires IsExample(env)
    ensures Replay(env, [0] + [3]).Some? && Replay(env, [0] + [3] + [4]).Some? && Replay(env, [0] + [3] + [4] + [5]).None?
  {
    PlainNext(env, [0], 3, 1);
    PlainNext(env, [0] + [3], 4, 2);
    PaysTooMuch(env, [0] + [3] + [4]);
  }

  lemma {:induction false} PaysTooMuch(env: Env, path: seq<BlockId>)
    requires IsExample(env) && |path| == 3 && Replay(env, path).Some? && 50 !in Replay(env, path).value
    ensures Replay(env, path + [5]).None?
  {
    var db := Replay(env, path).value;
    PlainBlockConnects(env, path + [5], 50, SUBSIDY + 1, 3, db);
    ReplayNext(env, path, 5, db);
  }

  /** The chains of blocks 1 to 4 replay. */
  lemma {:induction false} Replays(env: Env, path: seq<BlockId>)
    requires IsExample(env) && (path == [0] + [1] || path == [0] + [1] + [2] || path == [0] + [3] || path == [0] + [3] + [4])
    ensures Replay(env, path).Some?
  {
    ReplaysFirst(env);
    ReplaysSecond(env);
  }

  lemma {:induction false} LastFails(env: Env, path: seq<BlockId>)
    requires IsExample(env) && path == [0] + [3] + [4] + [5]
    ensures Replay(env, path).None?
  {
    ReplaysSecond(env);
  }

  // ---------------------------------------------------------------- the run

  function Record(prev: BlockId, height: nat, trust: nat): BlockIndex {
    BlockIndex(Some(prev), height, trust, 0, 0, false)
  }

  /** The arrival of block `b`; as on the first blocks of a chain every block adds 1 to the trust. */
  function NewBlock(b: BlockId, prev: BlockId, height: nat): Event {
    Arrival(SyncCheckpoints.Candidate(b, Record(prev, height, height), true), true, true)
  }

  /** The node is in step, with no pending checkpoint. */
  ghost predicate Has(env: Env, n: Node, tree: Tree, best: BlockId, syncPoint: BlockId) {
    InStep(env, 0, n) && n.s.pending == 0 && n.s.tree == tree && n.s.best == best && n.s.syncPoint == syncPoint
  }

  /** A block on a known one, before any checkpoint. */
  lemma {:induction false} Arrives(env: Env, n: Node, tree: Tree, best: BlockId, b: BlockId, prev: BlockId, height: nat, e: Event)
    requires IsExample(env) && Has(env, n, tree, best, 0) && NothingBetter(env, 0, n) && e == NewBlock(b, prev, height)
    requires b !in tree && prev in tree && tree[prev].height + 1 == height && tree[prev].chainTrust <= height
    requires HeightRule(env, b, height) && Replay(env, Path(tree, 0, prev) + [b]).Some?
    ensures var u := After(env, 0, n, e);
      && Has(env, u, tree[b := Record(prev, height, height)], if height > tree[best].chainTrust then b else best, 0)
      && NothingBetter(env, 0, u) && Sound(env, n, e)
      && Path(u.s.tree, 0, b) == Path(tree, 0, prev) + [b]
      && forall d :: d in tree ==> Path(u.s.tree, 0, d) == Path(tree, 0, d)
  {
    NoCollision(env);
    var c := e.b;
    GenesisUnder(tree, 0, prev);
    assert SyncCheckpoints.Acceptable(n.s, 0, c);
    forall d | d in tree ensures WellFormed(tree[b := c.record], 0) && Path(tree[b := c.record], 0, d) == Path(tree, 0, d) {
      PathAfterInsert(tree, 0, b, c.record, d);
    }
    ArrivalSettles(env, 0, n, c, true, true);
  }

  /** The same as the next step of a run. */
  lemma {:induction false} NextArrives(env: Env, nodes: seq<Node>, events: seq<Event>, n: Node, best: BlockId, b: BlockId, prev: BlockId, height: nat)
    returns (nodes': seq<Node>, events': seq<Event>, u: Node)
    requires Reaches(env, 0, nodes, events, n) && IsExample(env) && Has(env, n, n.s.tree, best, 0) && NothingBetter(env, 0, n)
    requires b !in n.s.tree && prev in n.s.tree && n.s.tree[prev].height + 1 == height && n.s.tree[prev].chainTrust <= height
    requires HeightRule(env, b, height) && Replay(env, Path(n.s.tree, 0, prev) + [b]).Some?
    ensures Reaches(env, 0, nodes', events', u) && |events'| == |events| + 1
    ensures u.s.tree == n.s.tree[b := Record(prev, height, height)]
    ensures Has(env, u, u.s.tree, if height > n.s.tree[best].chainTrust then b else best, 0) && NothingBetter(env, 0, u)
    ensures Path(u.s.tree, 0, b) == Path(n.s.tree, 0, prev) + [b]
    ensures forall d :: d in n.s.tree ==> Path(u.s.tree, 0, d) == Path(n.s.tree, 0, d)
  {
    var e := NewBlock(b, prev, height);
    Arrives(env, n, n.s.tree, best, b, prev, height, e);
    u := After(env, 0, n, e);
    OneMoreEvent(env, 0, nodes, events, n, e);
    nodes', events' := nodes + [u], events + [e];
  }

  /** The block index after genesis and blocks 1 to 4. */
  ghost predicate FourBlocks(t: Tree) {
    && t.Keys == {0, 1, 2, 3, 4} && WellFormed(t, 0)
    && t[3] == Record(0, 1, 1) && t[2] == Record(1, 2, 2) && t[4] == Record(3, 2, 2)
    && Path(t, 0, 2) == [0] + [1] + [2] && Path(t, 0, 3) == [0] + [3] && Path(t, 0, 4) == [0] + [3] + [4]
  }

  lemma {:induction false} Genesis(env: Env) returns (nodes: seq<Node>, n: Node)
    ensures Reaches(env, 0, nodes, [], n) && Has(env, n, n.s.tree, 0, 0) && NothingBetter(env, 0, n)
    ensures n.s.tree == map[0 := BlockIndex(None, 0, 0, 0, 0, false)] && Path(n.s.tree, 0, 0) == [0]
  {
    n := Node(SyncCheckpoints.State(map[0 := BlockIndex(None, 0, 0, 0, 0, false)], 0, 0, 0, 0), map[]);
    nodes := [n];
    StartInStep(env, 0, n);
  }

  ghost predicate TwoBlocks(t: Tree) {
    && t.Keys == {0, 1, 2} && WellFormed(t, 0) && t[0].height == 0 && t[0].chainTrust == 0 && t[2] == Record(1, 2, 2)
    && Path(t, 0, 0) == [0] && Path(t, 0, 2) == [0] + [1] + [2]
  }

  lemma {:induction false} TwoArrive(env: Env) returns (nodes: seq<Node>, events: seq<Event>, n: Node)
    requires IsExample(env)
    ensures Reaches(env, 0, nodes, events, n) && |events| == 2
    ensures TwoBlocks(n.s.tree) && Has(env, n, n.s.tree, 2, 0) && NothingBetter(env, 0, n)
  {
    Heights(env, 1, 1);
    Heights(env, 2, 2);
    nodes, n := Genesis(env);
    Replays(env, Path(n.s.tree, 0, 0) + [1]);
    nodes, events, n := NextArrives(env, nodes, [], n, 0, 1, 0, 1);
    Replays(env, Path(n.s.tree, 0, 1) + [2]);
    nodes, events, n := NextArrives(env, nodes, events, n, 1, 2, 1, 2);
  }

  ghost predicate ThreeBlocks(t: Tree) {
    && t.Keys == {0, 1, 2, 3} && WellFormed(t, 0) && t[3] == Record(0, 1, 1) && t[2] == Record(1, 2, 2)
    && Path(t, 0, 2) == [0] + [1] + [2] && Path(t, 0, 3) == [0] + [3]
  }

  lemma {:induction false} ThreeArrive(env: Env) returns (nodes: seq<Node>, events: seq<Event>, n: Node)
    requires IsExample(env)
    ensures Reaches(env, 0, nodes, events, n) && |events| == 3
    ensures ThreeBlocks(n.s.tree) && Has(env, n, n.s.tree, 2, 0) && NothingBetter(env, 0, n)
  {
    Heights(env, 3, 1);
    nodes, events, n := TwoArrive(env);
    Replays(env, Path(n.s.tree, 0, 0) + [3]);
    nodes, events, n := NextArrives(env, nodes, events, n, 2, 3, 0, 1);
  }

  /** Blocks 1 to 4 arrive; 3 and 4 have no more trust than 1 and 2. */
  lemma {:induction false} FourArrive(env: Env) returns (nodes: seq<Node>, events: seq<Event>, n: Node)
    requires IsExample(env)
    ensures Reaches(env, 0, nodes, events, n) && |events| == 4
    ensures FourBlocks(n.s.tree) && Has(env, n, n.s.tree, 2, 0) && NothingBetter(env, 0, n)
  {
    Heights(env, 4, 2);
    nodes, events, n := ThreeArrive(env);
    Replays(env, Path(n.s.tree, 0, 3) + [4]);
    nodes, events, n := NextArrives(env, nodes, events, n, 2, 4, 3, 2);
  }

  /** A checkpoint at block 3 makes it the best block, although block 4 is known. */
  lemma {:induction false} CheckpointArrives(env: Env, n: Node, e: Event)
    requires IsExample(env) && FourBlocks(n.s.tree) && Has(env, n, n.s.tree, 2, 0) && NothingBetter(env, 0, n)
    requires e == Message(3, true, true)
    ensures Has(env, After(env, 0, n, e), n.s.tree, 3, 3)
  {
    NoCollision(env);
    Replays(env, Path(n.s.tree, 0, 3));
    assert SyncCheckpoints.Validates(n.s, 0, 3);
    SteadyExact(env, 0, ChainOf(n), 0);
    SetBestDecides(env, n.s.tree, 0, 0, 2, n.db, 3);
    ProcessedCore(env, 0, n, 3, true, true);
    TakenCore(env, 0, n, 3, true, true);
    MessageSettles(env, 0, n, 3, true, true);
  }

  /** Block 5 on block 4 does not connect, but becomes the best block. */
  lemma {:induction false} LastArrives(env: Env, n: Node, e: Event)
    requires IsExample(env) && FourBlocks(n.s.tree) && Has(env, n, n.s.tree, 3, 3) && e == NewBlock(5, 4, 3)
    ensures Sound(env, n, e) && !Complete(env, 0, n, e)
    ensures var u := After(env, 0, n, e).s;
      WellFormed(u.tree, 0) && u.best == 5 && 5 in u.tree && Replay(env, Path(u.tree, 0, 5)).None?
  {
    NoCollision(env);
    Heights(env, 5, 3);
    Replays(env, Path(n.s.tree, 0, 4));
    var c := e.b;
    assert SyncCheckpoints.Acceptable(n.s, 0, c);
    PathAfterInsert(n.s.tree, 0, 5, c.record, 4);
    LastFails(env, Path(n.s.tree[5 := c.record], 0, 5));
    assert !NoBetter(env, n.s.tree, 0, 3, 3, 4);
    BetterKnownBreaks(env, 0, n, 4, c);
    BrokenAdopts(env, 0, n, c, true, true);
  }

  /** From the genesis block on: after five events the node is in step, and after the sixth its best block
      is one that does not connect. */
  lemma {:induction false} PostponedBlockFails(env: Env) returns (nodes: seq<Node>, events: seq<Event>, n: Node, e: Event, u: Node)
    requires IsExample(env)
    ensures SameIdSameTx(env) && Reaches(env, 0, nodes, events, n) && |events| == 5 && InStep(env, 0, n)
    ensures Reaches(env, 0, nodes + [u], events + [e], u) && !Complete(env, 0, n, e)
    ensures WellFormed(u.s.tree, 0) && u.s.best in u.s.tree && Replay(env, Path(u.s.tree, 0, u.s.best)).None?
  {
    NoCollision(env);
    nodes, events, n := FourArrive(env);
    e := Message(3, true, true);
    CheckpointArrives(env, n, e);
    OneMoreEvent(env, 0, nodes, events, n, e);
    u := After(env, 0, n, e);
    nodes, events, n := nodes + [u], events + [e], u;
    e := NewBlock(5, 4, 3);
    LastArrives(env, n, e);
    OneMoreEvent(env, 0, nodes, events, n, e);
    u := After(env, 0, n, e);
  }
}
