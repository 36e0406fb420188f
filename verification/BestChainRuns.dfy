/** Runs of AddToBlockIndex from the genesis block on: the index is the replay of the best chain, and
    the best chain is the one with the most trust among those that replay. */
module BestChainRuns {
  import opened Basics
  import opened BlockTree
  import opened Transactions
  import opened Ledger
  import opened LedgerReplay
  import opened BranchRollback
  import opened BestChain
  import opened TransactionIds

  // ---------------------------------------------------------------- what holds of every block in the index

  /** The coinbase of every block after genesis carries its height, as AcceptBlock demands. */
  ghost predicate TreeHeights(env: Env, tree: Tree, genesis: BlockId) {
    forall b :: b in tree && b != genesis ==> HeightRule(env, b, tree[b].height)
  }

  /** No block has less trust than its parent: nChainTrust is the parent's plus GetBlockTrust. */
  ghost predicate TrustGrows(tree: Tree, genesis: BlockId)
    requires WellFormed(tree, genesis)
  {
    forall b :: b in tree && b != genesis ==> tree[tree[b].prev.value].chainTrust <= tree[b].chainTrust
  }

  /** A new block as AcceptBlock and AddToBlockIndex record it. */
  ghost predicate Recordable(env: Env, s: Chain, b: BlockId, record: BlockIndex) {
    Attaches(s, b, record) && HeightRule(env, b, record.height) && s.tree[record.prev.value].chainTrust <= record.chainTrust
  }

  lemma {:induction false} PathHeights(env: Env, tree: Tree, genesis: BlockId, b: BlockId)
    requires WellFormed(tree, genesis) && b in tree && TreeHeights(env, tree, genesis)
    ensures HeightsOk(env, Path(tree, genesis, b))
  {
    var p := Path(tree, genesis, b);
    forall i | 0 < i < |p| ensures HeightRule(env, p[i], i) {
      PathPrefix(tree, genesis, b, i);
    }
  }

  lemma {:induction false} AncestorTrust(tree: Tree, genesis: BlockId, a: BlockId, b: BlockId)
    requires WellFormed(tree, genesis) && a in tree && b in tree && TrustGrows(tree, genesis)
    requires AncestorOrSelf(tree, genesis, a, b)
    ensures tree[a].chainTrust <= tree[b].chainTrust
    decreases tree[b].height
  {
    if a != b {
      AncestorTrust(tree, genesis, a, tree[b].prev.value);
    }
  }

  // ---------------------------------------------------------------- nothing better is known

  /** The chain of `d` does not replay if `d` is under `root` and has more trust than the best block. */
  ghost predicate NoBetter(env: Env, tree: Tree, genesis: BlockId, root: BlockId, best: BlockId, d: BlockId)
    requires WellFormed(tree, genesis) && root in tree && best in tree && d in tree
  {
    AncestorOrSelf(tree, genesis, root, d) && tree[d].chainTrust > tree[best].chainTrust ==> Replay(env, Path(tree, genesis, d)).None?
  }

  /** No known block under `root` with more trust than the best one has a chain that replays. */
  ghost predicate Settled(env: Env, tree: Tree, genesis: BlockId, root: BlockId, best: BlockId)
    requires WellFormed(tree, genesis) && root in tree && best in tree
  {
    forall d :: d in tree ==> NoBetter(env, tree, genesis, root, best, d)
  }

  /** A block of the branch that already has more trust than the best block is under the root. */
  lemma {:induction false} IntermediateUnder(tree: Tree, genesis: BlockId, root: BlockId, best: BlockId, b: BlockId)
    requires WellFormed(tree, genesis) && TrustGrows(tree, genesis) && root in tree && best in tree && b in tree
    requires AncestorOrSelf(tree, genesis, root, best) && AncestorOrSelf(tree, genesis, root, b)
    ensures var x := Intermediate(tree, genesis, best, b); x != b ==> AncestorOrSelf(tree, genesis, root, x)
  {
    var x := Intermediate(tree, genesis, best, b);
    PathPrefix(tree, genesis, b, tree[x].height);
    PathPrefix(tree, genesis, b, tree[root].height);
    if x != b && tree[x].height < tree[root].height {
      assert AncestorOrSelf(tree, genesis, x, root);
      AncestorTransitive(tree, genesis, x, root, best);
      AncestorTrust(tree, genesis, x, best);
    }
  }

  /** What SetBestChain starts from: the index is the replay of the best chain, on which no id repeats. */
  ghost predicate Exact(env: Env, tree: Tree, genesis: BlockId, best: BlockId, db: Index)
    requires WellFormed(tree, genesis) && best in tree
  {
    ExactAt(env, tree, genesis, best, db) && UniqueAlong(env, Path(tree, genesis, best))
  }

  /** If no other known block is better, SetBestChain adopts `b` exactly if its chain replays, and then
      connects all of it. */
  lemma {:induction false} SetBestDecides(env: Env, tree: Tree, genesis: BlockId, root: BlockId, best: BlockId, db: Index, b: BlockId)
    requires WellFormed(tree, genesis) && TrustGrows(tree, genesis) && root in tree && best in tree && b in tree
    requires AncestorOrSelf(tree, genesis, root, best) && AncestorOrSelf(tree, genesis, root, b)
    requires Exact(env, tree, genesis, best, db)
    requires forall d :: d in tree && d != b ==> NoBetter(env, tree, genesis, root, best, d)
    ensures var w := Replay(env, Path(tree, genesis, b));
      SetBest(env, tree, genesis, best, db, b) == if w.Some? then Adopted(b, w.value) else Refused
  {
    if Replay(env, Path(tree, genesis, b)).Some? {
      ValidChainAdopted(env, tree, genesis, best, db, b);
    } else {
      IntermediateUnder(tree, genesis, root, best, b);
      assert NoBetter(env, tree, genesis, root, best, Intermediate(tree, genesis, best, b));
      SetBestTracks(env, tree, genesis, best, db, b);
    }
  }

  /** From an exact index, a postponed block fails exactly when there are postponed blocks, the chain of
      the intermediate block replays, and the chain of `b` does not. */
  lemma {:induction false} PostponedFailsIff(env: Env, tree: Tree, genesis: BlockId, best: BlockId, db: Index, b: BlockId)
    requires WellFormed(tree, genesis) && best in tree && b in tree && Exact(env, tree, genesis, best, db)
    ensures var r, x := SetBest(env, tree, genesis, best, db, b), Intermediate(tree, genesis, best, b);
      r.Adopted? && r.tip != b <==>
        x != b && Replay(env, Path(tree, genesis, x)).Some? && Replay(env, Path(tree, genesis, b)).None?
  {
    SetBestTracks(env, tree, genesis, best, db, b);
    var x := Intermediate(tree, genesis, best, b);
    if Replay(env, Path(tree, genesis, x)).Some? && tree[b].prev != Some(best) {
      SwitchedExact(env, Path(tree, genesis, best), Path(tree, genesis, x), db);
    }
  }

  // ---------------------------------------------------------------- one step

  /** Everything recorded is in order, the index is exact, and `root` is on the best chain. */
  ghost predicate Steady(env: Env, genesis: BlockId, s: Chain, root: BlockId) {
    && Proper(s, genesis) && TreeHeights(env, s.tree, genesis) && TrustGrows(s.tree, genesis) && ExactState(env, genesis, s)
    && root in s.tree && AncestorOrSelf(s.tree, genesis, root, s.best)
  }

  lemma {:induction false} SteadyExact(env: Env, genesis: BlockId, s: Chain, root: BlockId)
    requires Steady(env, genesis, s, root) && SameIdSameTx(env)
    ensures Exact(env, s.tree, genesis, s.best, s.db)
  {
    PathHeights(env, s.tree, genesis, s.best);
    IdsAreUnique(env, Path(s.tree, genesis, s.best));
  }

  /** Recording a block keeps the old paths and what holds of every block. */
  lemma {:induction false} RecordedInOrder(env: Env, genesis: BlockId, s: Chain, root: BlockId, b: BlockId, record: BlockIndex)
    requires Steady(env, genesis, s, root) && Recordable(env, s, b, record)
    ensures Steady(env, genesis, s.(tree := s.tree[b := record]), root)
  {
    var t := s.tree[b := record];
    PathAfterInsert(s.tree, genesis, b, record, s.best);
  }

  lemma {:induction false} OldStillNoBetter(env: Env, genesis: BlockId, s: Chain, root: BlockId, b: BlockId, record: BlockIndex, d: BlockId)
    requires Steady(env, genesis, s, root) && Recordable(env, s, b, record) && d in s.tree
    requires NoBetter(env, s.tree, genesis, root, s.best, d)
    ensures WellFormed(s.tree[b := record], genesis) && NoBetter(env, s.tree[b := record], genesis, root, s.best, d)
  {
    PathAfterInsert(s.tree, genesis, b, record, d);
  }

  /** SetBestChain as AddToBlockIndex calls it, in a settled state, for a block under the root. */
  lemma {:induction false} NewBlockDecides(env: Env, genesis: BlockId, s: Chain, root: BlockId, b: BlockId, record: BlockIndex)
    requires SameIdSameTx(env) && Steady(env, genesis, s, root) && Settled(env, s.tree, genesis, root, s.best)
    requires Recordable(env, s, b, record) && WellFormed(s.tree[b := record], genesis)
    requires AncestorOrSelf(s.tree[b := record], genesis, root, b)
    ensures var t, w := s.tree[b := record], Replay(env, Path(s.tree[b := record], genesis, b));
      SetBest(env, t, genesis, s.best, s.db, b) == if w.Some? then Adopted(b, w.value) else Refused
  {
    var t := s.tree[b := record];
    RecordedInOrder(env, genesis, s, root, b, record);
    SteadyExact(env, genesis, s.(tree := t), root);
    forall d | d in t && d != b ensures NoBetter(env, t, genesis, root, s.best, d) {
      assert NoBetter(env, s.tree, genesis, root, s.best, d);
      OldStillNoBetter(env, genesis, s, root, b, record, d);
    }
    SetBestDecides(env, t, genesis, root, s.best, s.db, b);
  }

  /** Adopting a block, or refusing one that does not replay, leaves nothing better known. */
  lemma {:induction false} StillSettled(env: Env, genesis: BlockId, s: Chain, root: BlockId, b: BlockId, record: BlockIndex, top: BlockId)
    requires Steady(env, genesis, s, root) && Settled(env, s.tree, genesis, root, s.best) && Recordable(env, s, b, record)
    requires WellFormed(s.tree[b := record], genesis)
    requires top == s.best || (top == b && record.chainTrust > s.tree[s.best].chainTrust)
    requires top == s.best && record.chainTrust > s.tree[s.best].chainTrust ==> Replay(env, Path(s.tree[b := record], genesis, b)).None?
    ensures Settled(env, s.tree[b := record], genesis, root, top)
  {
    var t := s.tree[b := record];
    forall d | d in t ensures NoBetter(env, t, genesis, root, top, d) {
      if d != b {
        assert NoBetter(env, s.tree, genesis, root, s.best, d);
        OldStillNoBetter(env, genesis, s, root, b, record, d);
      }
    }
  }

  /** In a settled state a new block under the root with more trust than the best block becomes the best
      block exactly if its chain replays; the state is settled again. */
  lemma {:induction false} AddBlockSettles(env: Env, genesis: BlockId, s: Chain, root: BlockId, b: BlockId, record: BlockIndex)
    requires SameIdSameTx(env) && Steady(env, genesis, s, root) && Settled(env, s.tree, genesis, root, s.best)
    requires Recordable(env, s, b, record) && AncestorOrSelf(s.tree, genesis, root, record.prev.value)
    ensures var (u, ok) := AddBlock(env, genesis, s, b, record);
      && Steady(env, genesis, u, root) && Settled(env, u.tree, genesis, root, u.best)
      && u.tree == s.tree[b := record]
      && (record.chainTrust > s.tree[s.best].chainTrust ==> (ok <==> Replay(env, Path(u.tree, genesis, b)).Some?))
  {
    var t := s.tree[b := record];
    RecordedInOrder(env, genesis, s, root, b, record);
    RootOfNew(genesis, s.tree, root, b, record);
    var (u, ok) := AddBlock(env, genesis, s, b, record);
    if record.chainTrust > s.tree[s.best].chainTrust {
      NewBlockDecides(env, genesis, s, root, b, record);
    }
    StillSettled(env, genesis, s, root, b, record, u.best);
  }

  lemma {:induction false} RootOfNew(genesis: BlockId, tree: Tree, root: BlockId, b: BlockId, record: BlockIndex)
    requires WellFormed(tree, genesis) && root in tree && b !in tree && record.prev.Some? && record.prev.value in tree
    requires record.height == tree[record.prev.value].height + 1 && AncestorOrSelf(tree, genesis, root, record.prev.value)
    ensures WellFormed(tree[b := record], genesis) && AncestorOrSelf(tree[b := record], genesis, root, b)
  {
    PathAfterInsert(tree, genesis, b, record, record.prev.value);
    AncestorOfParent(tree[b := record], genesis, root, b);
  }

  // ---------------------------------------------------------------- whole runs

  /** `states` is a run from the genesis block on, adding `blocks` in turn. */
  ghost predicate IsRun(env: Env, genesis: BlockId, states: seq<Chain>, blocks: seq<(BlockId, BlockIndex)>) {
    && |states| == |blocks| + 1 && IsStart(genesis, states[0])
    && forall i :: 0 <= i < |blocks| ==> RunStep(env, genesis, states[i], blocks[i], states[i + 1])
  }

  /** Only the genesis block is known, and the index is empty. */
  ghost predicate IsStart(genesis: BlockId, s: Chain) {
    && s.tree.Keys == {genesis} && s.tree[genesis].prev == None && s.tree[genesis].height == 0
    && s.best == genesis && s.db == map[]
  }

  ghost predicate RunStep(env: Env, genesis: BlockId, s: Chain, block: (BlockId, BlockIndex), u: Chain) {
    && Recordable(env, s, block.0, block.1)
    && (Proper(s, genesis) ==> u == AddBlock(env, genesis, s, block.0, block.1).0)
  }

  lemma {:induction false} StartSteady(env: Env, genesis: BlockId, s: Chain)
    requires IsStart(genesis, s)
    ensures Steady(env, genesis, s, genesis) && Settled(env, s.tree, genesis, genesis, s.best)
  {
    SelfAncestor(s.tree, genesis, genesis);
  }

  lemma {:induction false} GenesisUnder(tree: Tree, genesis: BlockId, b: BlockId)
    requires WellFormed(tree, genesis) && b in tree
    ensures AncestorOrSelf(tree, genesis, genesis, b)
  {
  }

  /** In every state of every run, short of a collision of the transaction hash, the index is exactly the
      replay of the best chain, and no known block with more trust has a chain that replays. */
  lemma {:induction false} RunIsReplay(env: Env, genesis: BlockId, states: seq<Chain>, blocks: seq<(BlockId, BlockIndex)>, i: nat)
    requires IsRun(env, genesis, states, blocks) && i < |states| && SameIdSameTx(env)
    ensures Steady(env, genesis, states[i], genesis) && Settled(env, states[i].tree, genesis, genesis, states[i].best)
    ensures Replay(env, Path(states[i].tree, genesis, states[i].best)) == Some(states[i].db)
    ensures forall d :: d in states[i].tree && states[i].tree[d].chainTrust > states[i].tree[states[i].best].chainTrust ==>
      Replay(env, Path(states[i].tree, genesis, d)).None?
  {
    if i == 0 {
      StartSteady(env, genesis, states[0]);
    } else {
      RunIsReplay(env, genesis, states, blocks, i - 1);
      var s, b, record := states[i - 1], blocks[i - 1].0, blocks[i - 1].1;
      assert RunStep(env, genesis, s, blocks[i - 1], states[i]);
      GenesisUnder(s.tree, genesis, record.prev.value);
      AddBlockSettles(env, genesis, s, genesis, b, record);
    }
    var u := states[i];
    forall d | d in u.tree && u.tree[d].chainTrust > u.tree[u.best].chainTrust ensures Replay(env, Path(u.tree, genesis, d)).None? {
      GenesisUnder(u.tree, genesis, d);
      assert NoBetter(env, u.tree, genesis, genesis, u.best, d);
    }
  }

  /** In every step of every run SetBestChain would adopt the new block exactly if its chain replays, and
      then it is also the last block connected: no postponed block ever fails. */
  lemma {:induction false} RunCompletes(env: Env, genesis: BlockId, states: seq<Chain>, blocks: seq<(BlockId, BlockIndex)>, i: nat)
    requires IsRun(env, genesis, states, blocks) && i < |blocks| && SameIdSameTx(env)
    ensures var s, t, b := states[i], states[i].tree[blocks[i].0 := blocks[i].1], blocks[i].0;
      && s.best in s.tree && WellFormed(t, genesis) && b in t
      && SetBest(env, t, genesis, s.best, s.db, b) ==
           var w := Replay(env, Path(t, genesis, b)); if w.Some? then Adopted(b, w.value) else Refused
  {
    RunIsReplay(env, genesis, states, blocks, i);
    var s, b, record := states[i], blocks[i].0, blocks[i].1;
    assert RunStep(env, genesis, s, blocks[i], states[i + 1]);
    GenesisUnder(s.tree, genesis, record.prev.value);
    RootOfNew(genesis, s.tree, genesis, b, record);
    NewBlockDecides(env, genesis, s, genesis, b, record);
  }
}
