/** Runs of AcceptBlock and ProcessSyncCheckpoint (main.cpp, checkpoints.cpp) over the block index, the
    checkpoints and the transaction index together. */
module NodeRuns {
  import opened Basics
  import opened BlockTree
  import opened Transactions
  import opened Ledger
  import opened LedgerReplay
  import opened BestChain
  import opened TransactionIds
  import opened BestChainRuns
  import SyncCheckpoints

  /** The globals of SyncCheckpoints, and the "tx" table. */
  datatype Node = Node(s: SyncCheckpoints.State, db: Index)

  ghost function ChainOf(n: Node): Chain { Chain(n.s.tree, n.s.best, n.db) }

  ghost predicate Safe(n: Node, genesis: BlockId) { SyncCheckpoints.Safe(n.s, genesis) }

  /** A block arrives, or a checkpoint message.  The flags say whether reading the checkpoint's block from
      disk and writing the checkpoint succeed. */
  datatype Event =
    | Arrival(b: SyncCheckpoints.Candidate, read: bool, write: bool)
    | Message(c: BlockId, read: bool, write: bool)

  // ---------------------------------------------------------------- what the events do

  /** SetBestChain, called for a block of the index. */
  ghost function Select(env: Env, genesis: BlockId, n: Node, c: BlockId): Outcome
    requires Safe(n, genesis) && c in n.s.tree
  {
    SetBest(env, n.s.tree, genesis, n.s.best, n.db, c)
  }

  /** How the calls of taking a checkpoint end. */
  ghost function FateOf(env: Env, genesis: BlockId, n: Node, c: BlockId, read: bool, write: bool): SyncCheckpoints.Fate
    requires Safe(n, genesis)
  {
    SyncCheckpoints.Fate(read, c in n.s.tree && Select(env, genesis, n, c).Adopted?, write)
  }

  /** A validated checkpoint off the best chain, whose block can be read, is given to SetBestChain. */
  ghost predicate Selects(genesis: BlockId, n: Node, c: BlockId, read: bool)
    requires Safe(n, genesis)
  {
    SyncCheckpoints.Validates(n.s, genesis, c) && !AncestorOrSelf(n.s.tree, genesis, c, n.s.best) && read
  }

  /** The "tx" table after the checkpoint was taken. */
  ghost function TableAfter(env: Env, genesis: BlockId, n: Node, c: BlockId, read: bool): Index
    requires Safe(n, genesis)
  {
    if Selects(genesis, n, c, read) && Select(env, genesis, n, c).Adopted? then Select(env, genesis, n, c).db else n.db
  }

  ghost function Processed(env: Env, genesis: BlockId, n: Node, c: BlockId, read: bool, write: bool): Node
    requires Safe(n, genesis)
  {
    Node(SyncCheckpoints.Processed(n.s, genesis, c, FateOf(env, genesis, n, c, read, write)).0,
         TableAfter(env, genesis, n, c, read))
  }

  /** AcceptPendingSyncCheckpoint; a pending hash of 0 means that there is none. */
  ghost function PendingDone(env: Env, genesis: BlockId, n: Node, read: bool, write: bool): Node
    requires Safe(n, genesis)
  {
    Node(SyncCheckpoints.PendingDone(n.s, genesis, FateOf(env, genesis, n, n.s.pending, read, write)).0,
         if n.s.pending == 0 then n.db else TableAfter(env, genesis, n, n.s.pending, read))
  }

  lemma {:induction false} AcceptableAttaches(genesis: BlockId, n: Node, b: SyncCheckpoints.Candidate)
    requires Safe(n, genesis) && SyncCheckpoints.Acceptable(n.s, genesis, b)
    ensures Proper(ChainOf(n), genesis) && Attaches(ChainOf(n), b.id, b.record)
  {
  }

  /** AddToBlockIndex. */
  ghost function Recorded(env: Env, genesis: BlockId, n: Node, b: SyncCheckpoints.Candidate): (r: (Node, bool))
    requires Safe(n, genesis) && SyncCheckpoints.Acceptable(n.s, genesis, b)
    ensures Safe(r.0, genesis)
  {
    AcceptableAttaches(genesis, n, b);
    var (u, ok) := AddBlock(env, genesis, ChainOf(n), b.id, b.record);
    SyncCheckpoints.RecordedSafe(n.s, genesis, b, ok);
    (Node(SyncCheckpoints.Recorded(n.s, b, ok).0, u.db), ok)
  }

  /** AcceptBlock. */
  ghost function Accepted(env: Env, genesis: BlockId, n: Node, b: SyncCheckpoints.Candidate, read: bool, write: bool): Node
    requires Safe(n, genesis)
  {
    if !SyncCheckpoints.Acceptable(n.s, genesis, b) then n
    else
      var (u, ok) := Recorded(env, genesis, n, b);
      if ok then PendingDone(env, genesis, u, read, write) else u
  }

  ghost function After(env: Env, genesis: BlockId, n: Node, e: Event): Node
    requires Safe(n, genesis)
  {
    match e
    case Arrival(b, read, write) => Accepted(env, genesis, n, b, read, write)
    case Message(c, read, write) => Processed(env, genesis, n, c, read, write)
  }

  // ---------------------------------------------------------------- the checkpoints' view of it

  /** The same event with the outcomes of SetBestChain filled in. */
  ghost function Flagged(env: Env, genesis: BlockId, n: Node, e: Event): SyncCheckpoints.Event
    requires Safe(n, genesis)
  {
    match e
    case Message(c, read, write) => SyncCheckpoints.Event.Checkpoint(c, FateOf(env, genesis, n, c, read, write))
    case Arrival(b, read, write) =>
      if !SyncCheckpoints.Acceptable(n.s, genesis, b) then
        SyncCheckpoints.Event.Block(b, false, SyncCheckpoints.Fate(read, false, write))
      else
        var (u, ok) := Recorded(env, genesis, n, b);
        SyncCheckpoints.Event.Block(b, ok, FateOf(env, genesis, u, u.s.pending, read, write))
  }

  /** Seen from the checkpoints, a step of the node is a step of theirs. */
  lemma {:induction false} StepProjects(env: Env, genesis: BlockId, n: Node, e: Event)
    requires Safe(n, genesis)
    ensures After(env, genesis, n, e).s == SyncCheckpoints.After(n.s, genesis, Flagged(env, genesis, n, e))
    ensures Safe(After(env, genesis, n, e), genesis)
  {
    match e
    case Message(c, read, write) =>
    case Arrival(b, read, write) =>
      if SyncCheckpoints.Acceptable(n.s, genesis, b) {
        RecordedAlike(env, genesis, n, b);
      }
    SyncCheckpoints.AfterSafe(n.s, genesis, Flagged(env, genesis, n, e));
  }

  /** Both sides agree on whether the block was recorded and adopted. */
  lemma {:induction false} RecordedAlike(env: Env, genesis: BlockId, n: Node, b: SyncCheckpoints.Candidate)
    requires Safe(n, genesis) && SyncCheckpoints.Acceptable(n.s, genesis, b)
    ensures var (u, ok) := Recorded(env, genesis, n, b);
      && SyncCheckpoints.Recorded(n.s, b, ok) == (u.s, ok)
      && AddBlock(env, genesis, ChainOf(n), b.id, b.record) == (ChainOf(u), ok)
  {
    AcceptableAttaches(genesis, n, b);
  }

  // ---------------------------------------------------------------- taking a checkpoint

  ghost function Taken(env: Env, genesis: BlockId, n: Node, c: BlockId, read: bool, write: bool): Node
    requires Safe(n, genesis) && SyncCheckpoints.Validates(n.s, genesis, c)
  {
    Node(SyncCheckpoints.Taken(n.s, genesis, c, FateOf(env, genesis, n, c, read, write)).0, TableAfter(env, genesis, n, c, read))
  }

  /** They differ at most in the pending and the invalid checkpoint. */
  ghost predicate SameCore(n: Node, u: Node) {
    u.s.tree == n.s.tree && u.s.best == n.s.best && u.s.syncPoint == n.s.syncPoint && u.db == n.db
  }

  lemma {:induction false} ProcessedCore(env: Env, genesis: BlockId, n: Node, c: BlockId, read: bool, write: bool)
    requires Safe(n, genesis)
    ensures var u := Processed(env, genesis, n, c, read, write);
      if SyncCheckpoints.Validates(n.s, genesis, c) then u == Taken(env, genesis, n, c, read, write) else SameCore(n, u)
  {
  }

  lemma {:induction false} PendingCore(env: Env, genesis: BlockId, n: Node, read: bool, write: bool)
    requires Safe(n, genesis)
    ensures var u := PendingDone(env, genesis, n, read, write);
      if n.s.pending != 0 && SyncCheckpoints.Validates(n.s, genesis, n.s.pending) then u == Taken(env, genesis, n, n.s.pending, read, write)
      else SameCore(n, u)
  {
  }

  /** Whether the checkpoint becomes the best block. */
  ghost predicate Moves(env: Env, genesis: BlockId, n: Node, c: BlockId, read: bool)
    requires Safe(n, genesis)
  {
    Selects(genesis, n, c, read) && Select(env, genesis, n, c).Adopted?
  }

  lemma {:induction false} TakenCore(env: Env, genesis: BlockId, n: Node, c: BlockId, read: bool, write: bool)
    requires Safe(n, genesis) && SyncCheckpoints.Validates(n.s, genesis, c)
    ensures var u := Taken(env, genesis, n, c, read, write);
      && Safe(u, genesis) && u.s.tree == n.s.tree && (u.s.syncPoint == n.s.syncPoint || u.s.syncPoint == c)
      && (if Moves(env, genesis, n, c, read)
          then u.s.best == c && u.db == Select(env, genesis, n, c).db && u.s.syncPoint == (if write then c else n.s.syncPoint)
          else u.s.best == n.s.best && u.db == n.db)
  {
    SyncCheckpoints.TakenSafe(n.s, genesis, c, FateOf(env, genesis, n, c, read, write));
  }

  // ---------------------------------------------------------------- in step while everything connects

  /** The index is the replay of the best chain, and every block is in order. */
  ghost predicate InStep(env: Env, genesis: BlockId, n: Node) {
    Safe(n, genesis) && Steady(env, genesis, ChainOf(n), n.s.syncPoint)
  }

  /** What AcceptBlock and AddToBlockIndex see to for a block that passes. */
  ghost predicate Sound(env: Env, n: Node, e: Event) {
    e.Arrival? && e.b.checks && e.b.record.prev.Some? && e.b.record.prev.value in n.s.tree ==>
      HeightRule(env, e.b.id, e.b.record.height) && n.s.tree[e.b.record.prev.value].chainTrust <= e.b.record.chainTrust
  }

  /** If SetBestChain adopts the block, it connects all of it. */
  ghost predicate Whole(env: Env, genesis: BlockId, n: Node, c: BlockId)
    requires Safe(n, genesis) && c in n.s.tree
  {
    var r := Select(env, genesis, n, c);
    r.Adopted? ==> r.tip == c
  }

  /** The node between recording a block and selecting it. */
  ghost function WithBlock(n: Node, b: SyncCheckpoints.Candidate): Node {
    n.(s := n.s.(tree := n.s.tree[b.id := b.record]))
  }

  lemma {:induction false} KnownSafe(genesis: BlockId, n: Node, b: SyncCheckpoints.Candidate)
    requires Safe(n, genesis) && SyncCheckpoints.Acceptable(n.s, genesis, b)
    ensures Safe(WithBlock(n, b), genesis) && AncestorOrSelf(WithBlock(n, b).s.tree, genesis, n.s.syncPoint, b.id)
  {
    SyncCheckpoints.RecordedSafe(n.s, genesis, b, false);
    SyncCheckpoints.NewBlockDescends(n.s, genesis, b);
    SyncCheckpoints.AncestorGrown(n.s.tree, WithBlock(n, b).s.tree, genesis, n.s.syncPoint, n.s.best);
  }

  ghost predicate RecordsWhole(env: Env, genesis: BlockId, n: Node, b: SyncCheckpoints.Candidate)
    requires Safe(n, genesis) && SyncCheckpoints.Acceptable(n.s, genesis, b)
  {
    KnownSafe(genesis, n, b);
    b.record.chainTrust > n.s.tree[n.s.best].chainTrust ==> Whole(env, genesis, WithBlock(n, b), b.id)
  }

  ghost predicate TakesWhole(env: Env, genesis: BlockId, n: Node, c: BlockId, read: bool)
    requires Safe(n, genesis)
  {
    Selects(genesis, n, c, read) ==> Whole(env, genesis, n, c)
  }

  /** No call of SetBestChain during the event leaves a postponed block unconnected. */
  ghost predicate Complete(env: Env, genesis: BlockId, n: Node, e: Event)
    requires Safe(n, genesis)
  {
    match e
    case Message(c, read, _) => TakesWhole(env, genesis, n, c, read)
    case Arrival(b, read, _) =>
      SyncCheckpoints.Acceptable(n.s, genesis, b) ==>
        && RecordsWhole(env, genesis, n, b)
        && var (u, ok) := Recorded(env, genesis, n, b);
           ok && u.s.pending != 0 ==> TakesWhole(env, genesis, u, u.s.pending, read)
  }

  lemma {:induction false} TakenInStep(env: Env, genesis: BlockId, n: Node, c: BlockId, read: bool, write: bool)
    requires SameIdSameTx(env) && InStep(env, genesis, n) && SyncCheckpoints.Validates(n.s, genesis, c)
    requires TakesWhole(env, genesis, n, c, read)
    ensures InStep(env, genesis, Taken(env, genesis, n, c, read, write))
  {
    TakenCore(env, genesis, n, c, read, write);
    SteadyExact(env, genesis, ChainOf(n), n.s.syncPoint);
    SetBestExact(env, n.s.tree, genesis, n.s.best, n.db, c);
  }

  lemma {:induction false} SoundRecordable(env: Env, genesis: BlockId, n: Node, b: SyncCheckpoints.Candidate)
    requires Safe(n, genesis) && SyncCheckpoints.Acceptable(n.s, genesis, b)
    requires Sound(env, n, Arrival(b, true, true))
    ensures Recordable(env, ChainOf(n), b.id, b.record)
  {
  }

  lemma {:induction false} RecordedInStep(env: Env, genesis: BlockId, n: Node, b: SyncCheckpoints.Candidate)
    requires SameIdSameTx(env) && InStep(env, genesis, n) && SyncCheckpoints.Acceptable(n.s, genesis, b)
    requires Sound(env, n, Arrival(b, true, true)) && RecordsWhole(env, genesis, n, b)
    ensures InStep(env, genesis, Recorded(env, genesis, n, b).0)
  {
    SoundRecordable(env, genesis, n, b);
    RecordedInOrder(env, genesis, ChainOf(n), n.s.syncPoint, b.id, b.record);
    KnownExact(env, genesis, n, b);
    SetBestExact(env, WithBlock(n, b).s.tree, genesis, n.s.best, n.db, b.id);
    RecordedAlike(env, genesis, n, b);
  }

  lemma {:induction false} StepInStep(env: Env, genesis: BlockId, n: Node, e: Event)
    requires SameIdSameTx(env) && InStep(env, genesis, n) && Sound(env, n, e) && Complete(env, genesis, n, e)
    ensures InStep(env, genesis, After(env, genesis, n, e))
  {
    StepProjects(env, genesis, n, e);
    match e
    case Message(c, read, write) =>
      ProcessedCore(env, genesis, n, c, read, write);
      if SyncCheckpoints.Validates(n.s, genesis, c) {
        TakenInStep(env, genesis, n, c, read, write);
      }
    case Arrival(b, read, write) =>
      if SyncCheckpoints.Acceptable(n.s, genesis, b) {
        RecordedInStep(env, genesis, n, b);
        var (u, ok) := Recorded(env, genesis, n, b);
        PendingCore(env, genesis, u, read, write);
        if ok && u.s.pending != 0 && SyncCheckpoints.Validates(u.s, genesis, u.s.pending) {
          TakenInStep(env, genesis, u, u.s.pending, read, write);
        }
      }
  }

  // ---------------------------------------------------------------- when a postponed block can fail

  /** No known descendant of the checkpoint with more trust than the best block has a chain that replays. */
  ghost predicate NothingBetter(env: Env, genesis: BlockId, n: Node)
    requires Safe(n, genesis)
  {
    Settled(env, n.s.tree, genesis, n.s.syncPoint, n.s.best)
  }

  /** Among the known blocks under `root` with at most the trust of the best block, those with more trust
      than `c` have chains that do not replay. */
  ghost predicate BestSoFar(env: Env, genesis: BlockId, n: Node, c: BlockId, root: BlockId)
    requires Safe(n, genesis) && c in n.s.tree && root in n.s.tree
  {
    forall d :: d in n.s.tree && n.s.tree[d].chainTrust <= n.s.tree[n.s.best].chainTrust ==>
      NoBetter(env, n.s.tree, genesis, root, c, d)
  }

  /** The checkpoint does not lead the node to a block that a known valid chain already exceeds. */
  ghost predicate Prudent(env: Env, genesis: BlockId, n: Node, c: BlockId, read: bool, write: bool)
    requires Safe(n, genesis)
  {
    Moves(env, genesis, n, c, read) ==> BestSoFar(env, genesis, n, c, if write then c else n.s.syncPoint)
  }

  /** While nothing better is known, SetBestChain connects a checkpoint entirely, or refuses it. */
  lemma {:induction false} TakesAll(env: Env, genesis: BlockId, n: Node, c: BlockId, read: bool)
    requires SameIdSameTx(env) && InStep(env, genesis, n) && NothingBetter(env, genesis, n)
    ensures TakesWhole(env, genesis, n, c, read)
  {
    if Selects(genesis, n, c, read) {
      SteadyExact(env, genesis, ChainOf(n), n.s.syncPoint);
      SetBestDecides(env, n.s.tree, genesis, n.s.syncPoint, n.s.best, n.db, c);
    }
  }

  /** Afterwards nothing better is known exactly if the checkpoint was prudent. */
  lemma {:induction false} TakenSettlesIff(env: Env, genesis: BlockId, n: Node, c: BlockId, read: bool, write: bool)
    requires InStep(env, genesis, n) && NothingBetter(env, genesis, n) && SyncCheckpoints.Validates(n.s, genesis, c)
    ensures var u := Taken(env, genesis, n, c, read, write);
      Safe(u, genesis) && (NothingBetter(env, genesis, u) <==> Prudent(env, genesis, n, c, read, write))
  {
    TakenCore(env, genesis, n, c, read, write);
    var u := Taken(env, genesis, n, c, read, write);
    if Prudent(env, genesis, n, c, read, write) {
      forall d | d in u.s.tree ensures NoBetter(env, u.s.tree, genesis, u.s.syncPoint, u.s.best, d) {
        assert NoBetter(env, n.s.tree, genesis, n.s.syncPoint, n.s.best, d);
        UnderBoth(n.s.tree, genesis, n.s.syncPoint, u.s.syncPoint, d);
      }
    } else {
      var d :| d in n.s.tree && !NoBetter(env, n.s.tree, genesis, u.s.syncPoint, c, d);
      assert !NoBetter(env, u.s.tree, genesis, u.s.syncPoint, u.s.best, d);
    }
  }

  lemma {:induction false} UnderBoth(tree: Tree, genesis: BlockId, a: BlockId, b: BlockId, d: BlockId)
    requires WellFormed(tree, genesis) && a in tree && b in tree && d in tree
    requires a == b || AncestorOrSelf(tree, genesis, a, b)
    ensures AncestorOrSelf(tree, genesis, b, d) ==> AncestorOrSelf(tree, genesis, a, d)
  {
    if a != b && AncestorOrSelf(tree, genesis, b, d) {
      AncestorTransitive(tree, genesis, a, b, d);
    }
  }

  /** A checkpoint with at least the trust of the best block is prudent. */
  lemma {:induction false} AheadIsPrudent(env: Env, genesis: BlockId, n: Node, c: BlockId, read: bool, write: bool)
    requires Safe(n, genesis) && c in n.s.tree && n.s.tree[c].chainTrust >= n.s.tree[n.s.best].chainTrust
    ensures Prudent(env, genesis, n, c, read, write)
  {
  }

  /** Recording a block while nothing better is known connects it entirely or refuses it, and leaves
      nothing better known. */
  lemma {:induction false} RecordedSettles(env: Env, genesis: BlockId, n: Node, b: SyncCheckpoints.Candidate)
    requires SameIdSameTx(env) && InStep(env, genesis, n) && NothingBetter(env, genesis, n)
    requires SyncCheckpoints.Acceptable(n.s, genesis, b) && Sound(env, n, Arrival(b, true, true))
    ensures RecordsWhole(env, genesis, n, b)
    ensures var u := Recorded(env, genesis, n, b).0; InStep(env, genesis, u) && NothingBetter(env, genesis, u)
  {
    RecordsAll(env, genesis, n, b);
    RecordedInStep(env, genesis, n, b);
    SoundRecordable(env, genesis, n, b);
    ParentUnder(genesis, n, b);
    AddBlockSettles(env, genesis, ChainOf(n), n.s.syncPoint, b.id, b.record);
    RecordedAlike(env, genesis, n, b);
  }

  lemma {:induction false} RecordsAll(env: Env, genesis: BlockId, n: Node, b: SyncCheckpoints.Candidate)
    requires SameIdSameTx(env) && InStep(env, genesis, n) && NothingBetter(env, genesis, n)
    requires SyncCheckpoints.Acceptable(n.s, genesis, b) && Sound(env, n, Arrival(b, true, true))
    ensures RecordsWhole(env, genesis, n, b)
  {
    SoundRecordable(env, genesis, n, b);
    KnownSafe(genesis, n, b);
    NewBlockDecides(env, genesis, ChainOf(n), n.s.syncPoint, b.id, b.record);
  }

  lemma {:induction false} ParentUnder(genesis: BlockId, n: Node, b: SyncCheckpoints.Candidate)
    requires Safe(n, genesis) && SyncCheckpoints.Acceptable(n.s, genesis, b)
    ensures AncestorOrSelf(n.s.tree, genesis, n.s.syncPoint, b.record.prev.value)
  {
  }

  ghost predicate PrudentEvent(env: Env, genesis: BlockId, n: Node, e: Event)
    requires Safe(n, genesis)
  {
    match e
    case Message(c, read, write) => Prudent(env, genesis, n, c, read, write)
    case Arrival(b, read, write) =>
      SyncCheckpoints.Acceptable(n.s, genesis, b) ==>
        var (u, ok) := Recorded(env, genesis, n, b);
        ok && u.s.pending != 0 ==> Prudent(env, genesis, u, u.s.pending, read, write)
  }

  lemma {:induction false} MessageSettles(env: Env, genesis: BlockId, n: Node, c: BlockId, read: bool, write: bool)
    requires SameIdSameTx(env) && InStep(env, genesis, n) && NothingBetter(env, genesis, n)
    ensures TakesWhole(env, genesis, n, c, read)
    ensures var u := Processed(env, genesis, n, c, read, write);
      InStep(env, genesis, u) && (Prudent(env, genesis, n, c, read, write) ==> NothingBetter(env, genesis, u))
  {
    TakesAll(env, genesis, n, c, read);
    ProcessedCore(env, genesis, n, c, read, write);
    if SyncCheckpoints.Validates(n.s, genesis, c) {
      TakenInStep(env, genesis, n, c, read, write);
      TakenSettlesIff(env, genesis, n, c, read, write);
    }
  }

  lemma {:induction false} PendingSettles(env: Env, genesis: BlockId, n: Node, read: bool, write: bool)
    requires SameIdSameTx(env) && InStep(env, genesis, n) && NothingBetter(env, genesis, n)
    ensures TakesWhole(env, genesis, n, n.s.pending, read)
    ensures var u := PendingDone(env, genesis, n, read, write);
      && InStep(env, genesis, u)
      && ((n.s.pending != 0 ==> Prudent(env, genesis, n, n.s.pending, read, write)) ==> NothingBetter(env, genesis, u))
  {
    TakesAll(env, genesis, n, n.s.pending, read);
    PendingCore(env, genesis, n, read, write);
    if n.s.pending != 0 && SyncCheckpoints.Validates(n.s, genesis, n.s.pending) {
      TakenInStep(env, genesis, n, n.s.pending, read, write);
      TakenSettlesIff(env, genesis, n, n.s.pending, read, write);
    }
  }

  /** The step of an event is complete, and if the event is prudent nothing better is known afterwards. */
  lemma {:induction false} StepSettles(env: Env, genesis: BlockId, n: Node, e: Event)
    requires SameIdSameTx(env) && InStep(env, genesis, n) && NothingBetter(env, genesis, n) && Sound(env, n, e)
    ensures Complete(env, genesis, n, e) && InStep(env, genesis, After(env, genesis, n, e))
    ensures PrudentEvent(env, genesis, n, e) ==> NothingBetter(env, genesis, After(env, genesis, n, e))
  {
    match e
    case Message(c, read, write) =>
      MessageSettles(env, genesis, n, c, read, write);
    case Arrival(b, read, write) =>
      if SyncCheckpoints.Acceptable(n.s, genesis, b) {
        RecordedSettles(env, genesis, n, b);
        PendingSettles(env, genesis, Recorded(env, genesis, n, b).0, read, write);
      }
  }

  /** A new block's postponed part fails exactly when there is one, the intermediate block's chain replays,
      and the new block's does not. */
  lemma {:induction false} RecordFailsIff(env: Env, genesis: BlockId, n: Node, b: SyncCheckpoints.Candidate)
    requires SameIdSameTx(env) && InStep(env, genesis, n)
    requires SyncCheckpoints.Acceptable(n.s, genesis, b) && Sound(env, n, Arrival(b, true, true))
    ensures Safe(WithBlock(n, b), genesis)
    ensures var t := WithBlock(n, b).s.tree; var x := Intermediate(t, genesis, n.s.best, b.id);
      !RecordsWhole(env, genesis, n, b) <==>
        x != b.id && Replay(env, Path(t, genesis, x)).Some? && Replay(env, Path(t, genesis, b.id)).None?
  {
    KnownExact(env, genesis, n, b);
    PostponedFailsIff(env, WithBlock(n, b).s.tree, genesis, n.s.best, n.db, b.id);
  }

  /** And likewise for a checkpoint that is given to SetBestChain. */
  lemma {:induction false} TakeFailsIff(env: Env, genesis: BlockId, n: Node, c: BlockId, read: bool)
    requires SameIdSameTx(env) && InStep(env, genesis, n) && Selects(genesis, n, c, read)
    ensures var x := Intermediate(n.s.tree, genesis, n.s.best, c);
      !TakesWhole(env, genesis, n, c, read) <==>
        x != c && Replay(env, Path(n.s.tree, genesis, x)).Some? && Replay(env, Path(n.s.tree, genesis, c)).None?
  {
    SteadyExact(env, genesis, ChainOf(n), n.s.syncPoint);
    PostponedFailsIff(env, n.s.tree, genesis, n.s.best, n.db, c);
  }

  /** An acceptable block arrives while nothing better is known and no checkpoint is pending. */
  lemma {:induction false} ArrivalSettles(env: Env, genesis: BlockId, n: Node, b: SyncCheckpoints.Candidate, read: bool, write: bool)
    requires SameIdSameTx(env) && InStep(env, genesis, n) && NothingBetter(env, genesis, n) && n.s.pending == 0
    requires SyncCheckpoints.Acceptable(n.s, genesis, b) && Sound(env, n, Arrival(b, read, write))
    ensures var u := After(env, genesis, n, Arrival(b, read, write));
      && InStep(env, genesis, u) && NothingBetter(env, genesis, u)
      && u.s.tree == n.s.tree[b.id := b.record] && u.s.syncPoint == n.s.syncPoint && u.s.pending == 0
      && u.s.best == (if b.record.chainTrust > n.s.tree[n.s.best].chainTrust && Replay(env, Path(u.s.tree, genesis, b.id)).Some?
                      then b.id else n.s.best)
  {
    RecordedSettles(env, genesis, n, b);
    SoundRecordable(env, genesis, n, b);
    ParentUnder(genesis, n, b);
    AddBlockSettles(env, genesis, ChainOf(n), n.s.syncPoint, b.id, b.record);
    RecordedAlike(env, genesis, n, b);
  }

  /** Once a better block is known, any block on it that does not connect is adopted all the same. */
  lemma {:induction false} BetterKnownBreaks(env: Env, genesis: BlockId, n: Node, d: BlockId, b: SyncCheckpoints.Candidate)
    requires SameIdSameTx(env) && InStep(env, genesis, n) && d in n.s.tree && !NoBetter(env, n.s.tree, genesis, n.s.syncPoint, n.s.best, d)
    requires SyncCheckpoints.Acceptable(n.s, genesis, b) && b.record.prev == Some(d) && Sound(env, n, Arrival(b, true, true))
    ensures Safe(WithBlock(n, b), genesis)
    ensures RecordsWhole(env, genesis, n, b) <==> Replay(env, Path(WithBlock(n, b).s.tree, genesis, b.id)).Some?
  {
    KnownExact(env, genesis, n, b);
    PathAfterInsert(n.s.tree, genesis, b.id, b.record, d);
    ChildOfBetter(env, WithBlock(n, b).s.tree, genesis, n.s.best, n.db, d, b.id);
  }

  /** When a block is adopted without all of it being connected, it is the best block all the same. */
  lemma {:induction false} BrokenAdopts(env: Env, genesis: BlockId, n: Node, b: SyncCheckpoints.Candidate, read: bool, write: bool)
    requires Safe(n, genesis) && SyncCheckpoints.Acceptable(n.s, genesis, b) && n.s.pending == 0
    requires !RecordsWhole(env, genesis, n, b)
    ensures !Complete(env, genesis, n, Arrival(b, read, write))
    ensures var u := After(env, genesis, n, Arrival(b, read, write)); u.s.tree == n.s.tree[b.id := b.record] && u.s.best == b.id
  {
    RecordedAlike(env, genesis, n, b);
  }

  /** What SetBestChain starts from when AddToBlockIndex calls it. */
  lemma {:induction false} KnownExact(env: Env, genesis: BlockId, n: Node, b: SyncCheckpoints.Candidate)
    requires SameIdSameTx(env) && InStep(env, genesis, n)
    requires SyncCheckpoints.Acceptable(n.s, genesis, b) && Sound(env, n, Arrival(b, true, true))
    ensures Safe(WithBlock(n, b), genesis) && Exact(env, WithBlock(n, b).s.tree, genesis, n.s.best, n.db)
    ensures n.s.tree[b.record.prev.value].chainTrust <= b.record.chainTrust
  {
    KnownSafe(genesis, n, b);
    SoundRecordable(env, genesis, n, b);
    RecordedInOrder(env, genesis, ChainOf(n), n.s.syncPoint, b.id, b.record);
    SteadyExact(env, genesis, ChainOf(WithBlock(n, b)), n.s.syncPoint);
  }

  /** SetBestChain of a child of a better block whose chain replays. */
  lemma {:induction false} ChildOfBetter(env: Env, t: Tree, genesis: BlockId, best: BlockId, db: Index, d: BlockId, b: BlockId)
    requires WellFormed(t, genesis) && best in t && d in t && b in t && t[b].prev == Some(d) && Exact(env, t, genesis, best, db)
    requires t[d].chainTrust > t[best].chainTrust && Replay(env, Path(t, genesis, d)).Some?
    ensures var r := SetBest(env, t, genesis, best, db, b); r.Adopted? && (r.tip == b <==> Replay(env, Path(t, genesis, b)).Some?)
  {
    PostponedFailsIff(env, t, genesis, best, db, b);
    SetBestTracks(env, t, genesis, best, db, b);
    var x := Intermediate(t, genesis, best, d);
    PathPrefix(t, genesis, d, t[x].height);
    ReplayPrefix(env, Path(t, genesis, d), t[x].height + 1);
    if Replay(env, Path(t, genesis, b)).Some? {
      ValidChainAdopted(env, t, genesis, best, db, b);
    }
  }

  // ---------------------------------------------------------------- whole runs

  /** Only the genesis block is known: it is the best block and the checkpoint, and nothing is indexed. */
  ghost predicate IsStart(genesis: BlockId, n: Node) {
    && n.s.tree.Keys == {genesis} && n.s.tree[genesis].prev == None && n.s.tree[genesis].height == 0
    && n.s.best == genesis && n.s.syncPoint == genesis && n.db == map[]
  }

  ghost predicate IsRun(env: Env, genesis: BlockId, nodes: seq<Node>, events: seq<Event>) {
    && |nodes| == |events| + 1 && IsStart(genesis, nodes[0])
    && forall i :: 0 <= i < |events| ==> StepAt(env, genesis, nodes[i], events[i], nodes[i + 1])
  }

  ghost predicate StepAt(env: Env, genesis: BlockId, n: Node, e: Event, u: Node) {
    Sound(env, n, e) && (Safe(n, genesis) ==> u == After(env, genesis, n, e))
  }

  /** The run ends in this node. */
  ghost predicate Reaches(env: Env, genesis: BlockId, nodes: seq<Node>, events: seq<Event>, n: Node) {
    IsRun(env, genesis, nodes, events) && nodes[|events|] == n
  }

  lemma {:induction false} OneMoreEvent(env: Env, genesis: BlockId, nodes: seq<Node>, events: seq<Event>, n: Node, e: Event)
    requires Reaches(env, genesis, nodes, events, n) && Safe(n, genesis) && Sound(env, n, e)
    ensures Reaches(env, genesis, nodes + [After(env, genesis, n, e)], events + [e], After(env, genesis, n, e))
  {
    var u := After(env, genesis, n, e);
    var longer, more := nodes + [u], events + [e];
    forall i | 0 <= i < |more| ensures StepAt(env, genesis, longer[i], more[i], longer[i + 1]) {
      assert i < |events| ==> StepAt(env, genesis, nodes[i], events[i], nodes[i + 1]);
    }
  }

  lemma {:induction false} StartInStep(env: Env, genesis: BlockId, n: Node)
    requires IsStart(genesis, n)
    ensures InStep(env, genesis, n) && NothingBetter(env, genesis, n)
  {
    SelfAncestor(n.s.tree, genesis, genesis);
  }

  /** In every state of every run the checkpoint is on the best chain. */
  lemma {:induction false} RunIsSafe(env: Env, genesis: BlockId, nodes: seq<Node>, events: seq<Event>, i: nat)
    requires IsRun(env, genesis, nodes, events) && i < |nodes|
    ensures Safe(nodes[i], genesis)
  {
    if i == 0 {
      StartInStep(env, genesis, nodes[0]);
    } else {
      RunIsSafe(env, genesis, nodes, events, i - 1);
      assert StepAt(env, genesis, nodes[i - 1], events[i - 1], nodes[i]);
      StepProjects(env, genesis, nodes[i - 1], events[i - 1]);
    }
  }

  /** The events of a run with the outcomes of SetBestChain filled in. */
  ghost function Flags(env: Env, genesis: BlockId, nodes: seq<Node>, events: seq<Event>): seq<SyncCheckpoints.Event>
    requires |nodes| == |events| + 1 && forall i :: 0 <= i < |nodes| ==> Safe(nodes[i], genesis)
  {
    seq(|events|, i requires 0 <= i < |events| => Flagged(env, genesis, nodes[i], events[i]))
  }

  ghost function States(nodes: seq<Node>): seq<SyncCheckpoints.State> {
    seq(|nodes|, i requires 0 <= i < |nodes| => nodes[i].s)
  }

  /** Every run is, seen from the checkpoints, a run of SyncCheckpoints, so that its theorems hold of it. */
  lemma {:induction false} RunProjects(env: Env, genesis: BlockId, nodes: seq<Node>, events: seq<Event>)
    requires IsRun(env, genesis, nodes, events)
    ensures forall i :: 0 <= i < |nodes| ==> Safe(nodes[i], genesis)
    ensures SyncCheckpoints.IsRun(States(nodes), Flags(env, genesis, nodes, events), genesis)
  {
    forall i | 0 <= i < |nodes| ensures Safe(nodes[i], genesis) {
      RunIsSafe(env, genesis, nodes, events, i);
    }
    var states, flags := States(nodes), Flags(env, genesis, nodes, events);
    forall i | 0 <= i < |flags| ensures SyncCheckpoints.EventAt(states, flags, genesis, i) {
      assert StepAt(env, genesis, nodes[i], events[i], nodes[i + 1]);
      StepProjects(env, genesis, nodes[i], events[i]);
    }
  }

  /** As long as no postponed block has failed, the index is the replay of the best chain. */
  lemma {:induction false} RunInStep(env: Env, genesis: BlockId, nodes: seq<Node>, events: seq<Event>, i: nat)
    requires IsRun(env, genesis, nodes, events) && i < |nodes| && SameIdSameTx(env)
    requires forall j :: 0 <= j < i && Safe(nodes[j], genesis) ==> Complete(env, genesis, nodes[j], events[j])
    ensures InStep(env, genesis, nodes[i])
    ensures Replay(env, Path(nodes[i].s.tree, genesis, nodes[i].s.best)) == Some(nodes[i].db)
  {
    if i == 0 {
      StartInStep(env, genesis, nodes[0]);
    } else {
      RunInStep(env, genesis, nodes, events, i - 1);
      assert StepAt(env, genesis, nodes[i - 1], events[i - 1], nodes[i]);
      StepInStep(env, genesis, nodes[i - 1], events[i - 1]);
    }
  }

  /** In every run whose checkpoints are prudent, no postponed block ever fails, the index is the replay of
      the best chain throughout, and no known descendant of the checkpoint is better. */
  lemma {:induction false} PrudentRun(env: Env, genesis: BlockId, nodes: seq<Node>, events: seq<Event>, i: nat)
    requires IsRun(env, genesis, nodes, events) && i < |nodes| && SameIdSameTx(env)
    requires forall j :: 0 <= j < i && Safe(nodes[j], genesis) ==> PrudentEvent(env, genesis, nodes[j], events[j])
    ensures InStep(env, genesis, nodes[i]) && NothingBetter(env, genesis, nodes[i])
    ensures Replay(env, Path(nodes[i].s.tree, genesis, nodes[i].s.best)) == Some(nodes[i].db)
    ensures i < |events| ==> Complete(env, genesis, nodes[i], events[i])
  {
    if i == 0 {
      StartInStep(env, genesis, nodes[0]);
    } else {
      PrudentRun(env, genesis, nodes, events, i - 1);
      assert StepAt(env, genesis, nodes[i - 1], events[i - 1], nodes[i]);
      StepSettles(env, genesis, nodes[i - 1], events[i - 1]);
    }
    if i < |events| {
      assert StepAt(env, genesis, nodes[i], events[i], nodes[i + 1]);
      StepSettles(env, genesis, nodes[i], events[i]);
    }
  }
}
