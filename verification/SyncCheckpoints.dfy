/** Synchronized checkpoints (checkpoints.cpp) together with AcceptBlock (main.cpp), on mainnet in
    STRICT mode.  SetBestChain, ReadFromDisk and the database are seen through whether they
    succeed; what SetBestChain does when it succeeds or fails is the subject of ChainEngine, and NodeRuns
    puts both together. */
module SyncCheckpoints {
  import opened Basics
  import opened BlockTree

  /** The globals: the block index, pindexBest, and the three hashes.  0 means no pending one. */
  datatype State = State(tree: Tree, best: BlockId, syncPoint: BlockId, pending: BlockId, invalid: BlockId)

  /** Whether reading a block, SetBestChain, and writing the checkpoint succeed. */
  datatype Fate = Fate(read: bool, setBest: bool, write: bool)

  ghost predicate StrictDescendant(t: Tree, genesis: BlockId, a: BlockId, b: BlockId)
    requires WellFormed(t, genesis) && a in t && b in t
  {
    a != b && AncestorOrSelf(t, genesis, a, b)
  }

  /** The checkpoint is on the best chain. */
  ghost predicate Safe(s: State, genesis: BlockId) {
    && WellFormed(s.tree, genesis) && s.best in s.tree && s.syncPoint in s.tree
    && AncestorOrSelf(s.tree, genesis, s.syncPoint, s.best)
  }

  // ---------------------------------------------------------------- what the operations do

  /** What CheckSync decides for a block with parent `prev`. */
  ghost predicate PassesSync(s: State, genesis: BlockId, b: BlockId, prev: BlockId)
    requires Safe(s, genesis) && prev in s.tree
  {
    var height, syncHeight := s.tree[prev].height + 1, s.tree[s.syncPoint].height;
    if height > syncHeight then AncestorOrSelf(s.tree, genesis, s.syncPoint, prev)
    else if height == syncHeight then b == s.syncPoint
    else b in s.tree
  }

  /** What ValidateSyncCheckpoint decides. */
  ghost predicate Validates(s: State, genesis: BlockId, c: BlockId)
    requires Safe(s, genesis)
  {
    c in s.tree && StrictDescendant(s.tree, genesis, s.syncPoint, c)
  }

  /** The checkpoint is on a branch away from the current one. */
  ghost predicate Conflicts(s: State, genesis: BlockId, c: BlockId)
    requires Safe(s, genesis)
  {
    && c in s.tree && !AncestorOrSelf(s.tree, genesis, s.syncPoint, c)
    && !AncestorOrSelf(s.tree, genesis, c, s.syncPoint)
  }

  ghost function Validated(s: State, genesis: BlockId, c: BlockId): State
    requires Safe(s, genesis)
  {
    if Conflicts(s, genesis, c) then s.(invalid := c) else s
  }

  /** Taking a validated checkpoint: make its chain the best one if need be, then record it. */
  ghost function Taken(s: State, genesis: BlockId, c: BlockId, fate: Fate): (r: (State, bool))
    requires Safe(s, genesis) && Validates(s, genesis, c)
  {
    if !AncestorOrSelf(s.tree, genesis, c, s.best) && !fate.read then (s, false)
    else if !AncestorOrSelf(s.tree, genesis, c, s.best) && !fate.setBest then (s.(invalid := c), false)
    else
      var u := if AncestorOrSelf(s.tree, genesis, c, s.best) then s else s.(best := c);
      if fate.write then (u.(syncPoint := c, pending := 0), true) else (u, false)
  }

  /** ProcessSyncCheckpoint of a message whose signature is good. */
  ghost function Processed(s: State, genesis: BlockId, c: BlockId, fate: Fate): (State, bool)
    requires Safe(s, genesis)
  {
    if c !in s.tree then (s.(pending := c), false)
    else if Validates(s, genesis, c) then Taken(s, genesis, c, fate)
    else (Validated(s, genesis, c), false)
  }

  /** AcceptPendingSyncCheckpoint. */
  ghost function PendingDone(s: State, genesis: BlockId, fate: Fate): (State, bool)
    requires Safe(s, genesis)
  {
    if s.pending == 0 || s.pending !in s.tree then (s, false)
    else if Validates(s, genesis, s.pending) then Taken(s, genesis, s.pending, fate)
    else (Validated(s, genesis, s.pending).(pending := 0), false)
  }

  /** A block as AcceptBlock sees it: its record, and whether all checks but the one against the
      synchronized checkpoint pass. */
  datatype Candidate = Candidate(id: BlockId, record: BlockIndex, checks: bool)

  /** AddToBlockIndex: the block is recorded, and becomes the best one if it has more trust and
      SetBestChain succeeds. */
  function Recorded(s: State, b: Candidate, setBest: bool): (State, bool)
    requires s.best in s.tree
  {
    var u := s.(tree := s.tree[b.id := b.record]);
    if b.record.chainTrust > s.tree[s.best].chainTrust then
      if setBest then (u.(best := b.id), true) else (u, false)
    else (u, true)
  }

  ghost predicate Acceptable(s: State, genesis: BlockId, b: Candidate)
    requires Safe(s, genesis)
  {
    && b.id !in s.tree && b.record.prev.Some? && b.record.prev.value in s.tree && b.checks
    && b.record.height == s.tree[b.record.prev.value].height + 1
    && PassesSync(s, genesis, b.id, b.record.prev.value)
  }

  /** AcceptBlock; `fate` is for the pending checkpoint. */
  ghost function Accepted(s: State, genesis: BlockId, b: Candidate, setBest: bool, fate: Fate): (State, bool)
    requires Safe(s, genesis)
  {
    if !Acceptable(s, genesis, b) then (s, false)
    else
      RecordedSafe(s, genesis, b, setBest);
      var (u, ok) := Recorded(s, b, setBest);
      if ok then (PendingDone(u, genesis, fate).0, true) else (u, false)
  }

  // ---------------------------------------------------------------- growing trees

  /** `u` holds all of `t`, unchanged. */
  ghost predicate Grown(t: Tree, u: Tree, genesis: BlockId) {
    && WellFormed(t, genesis) && WellFormed(u, genesis)
    && forall b :: b in t ==> b in u && u[b] == t[b]
  }

  lemma {:induction false} PathGrown(t: Tree, u: Tree, genesis: BlockId, b: BlockId)
    requires Grown(t, u, genesis) && b in t
    ensures b in u && Path(u, genesis, b) == Path(t, genesis, b)
    decreases t[b].height
  {
    if b != genesis {
      PathGrown(t, u, genesis, t[b].prev.value);
    }
  }

  lemma {:induction false} AncestorGrown(t: Tree, u: Tree, genesis: BlockId, a: BlockId, b: BlockId)
    requires Grown(t, u, genesis) && a in t && b in t
    ensures a in u && b in u && (AncestorOrSelf(u, genesis, a, b) <==> AncestorOrSelf(t, genesis, a, b))
  {
    PathGrown(t, u, genesis, b);
  }

  // ---------------------------------------------------------------- one step

  /** A block that passes CheckSync and is not yet known descends from the checkpoint. */
  lemma {:induction false} NewBlockDescends(s: State, genesis: BlockId, b: Candidate)
    requires Safe(s, genesis) && Acceptable(s, genesis, b)
    ensures var t := s.tree[b.id := b.record];
      Grown(s.tree, t, genesis) && StrictDescendant(t, genesis, s.syncPoint, b.id)
  {
    var t := s.tree[b.id := b.record];
    var prev := b.record.prev.value;
    PathAfterInsert(s.tree, genesis, b.id, b.record, prev);
    assert Grown(s.tree, t, genesis);
    AncestorGrown(s.tree, t, genesis, s.syncPoint, prev);
    AncestorOfParent(t, genesis, s.syncPoint, b.id);
  }

  lemma {:induction false} RecordedSafe(s: State, genesis: BlockId, b: Candidate, setBest: bool)
    requires Safe(s, genesis) && Acceptable(s, genesis, b)
    ensures Safe(Recorded(s, b, setBest).0, genesis)
  {
    NewBlockDescends(s, genesis, b);
    AncestorGrown(s.tree, s.tree[b.id := b.record], genesis, s.syncPoint, s.best);
  }

  /** The checkpoint stays or moves to a strict descendant; old blocks stay as they are, and every
      new block is a strict descendant of the checkpoint that was in force. */
  ghost predicate Advances(s: State, u: State, genesis: BlockId)
    requires Safe(s, genesis) && Safe(u, genesis)
  {
    && Grown(s.tree, u.tree, genesis)
    && (u.syncPoint == s.syncPoint || StrictDescendant(u.tree, genesis, s.syncPoint, u.syncPoint))
    && (forall b :: b in u.tree && b !in s.tree ==> StrictDescendant(u.tree, genesis, s.syncPoint, b))
  }

  lemma {:induction false} TakenSafe(s: State, genesis: BlockId, c: BlockId, fate: Fate)
    requires Safe(s, genesis) && Validates(s, genesis, c)
    ensures Safe(Taken(s, genesis, c, fate).0, genesis) && Advances(s, Taken(s, genesis, c, fate).0, genesis)
    ensures Taken(s, genesis, c, fate).0.tree == s.tree
    ensures Taken(s, genesis, c, fate).1 <==> Taken(s, genesis, c, fate).0.syncPoint == c
  {
    SelfAncestor(s.tree, genesis, c);
  }

  lemma {:induction false} ProcessedSafe(s: State, genesis: BlockId, c: BlockId, fate: Fate)
    requires Safe(s, genesis)
    ensures Safe(Processed(s, genesis, c, fate).0, genesis) && Advances(s, Processed(s, genesis, c, fate).0, genesis)
  {
    if Validates(s, genesis, c) {
      TakenSafe(s, genesis, c, fate);
    }
  }

  lemma {:induction false} PendingSafe(s: State, genesis: BlockId, fate: Fate)
    requires Safe(s, genesis)
    ensures Safe(PendingDone(s, genesis, fate).0, genesis) && Advances(s, PendingDone(s, genesis, fate).0, genesis)
    ensures PendingDone(s, genesis, fate).0.tree == s.tree
  {
    if Validates(s, genesis, s.pending) {
      TakenSafe(s, genesis, s.pending, fate);
    }
  }

  lemma {:induction false} AcceptedSafe(s: State, genesis: BlockId, b: Candidate, setBest: bool, fate: Fate)
    requires Safe(s, genesis)
    ensures Safe(Accepted(s, genesis, b, setBest, fate).0, genesis)
    ensures Advances(s, Accepted(s, genesis, b, setBest, fate).0, genesis)
    ensures b.id in Accepted(s, genesis, b, setBest, fate).0.tree <==> b.id in s.tree || Acceptable(s, genesis, b)
  {
    if Acceptable(s, genesis, b) {
      NewBlockDescends(s, genesis, b);
      RecordedSafe(s, genesis, b, setBest);
      PendingSafe(Recorded(s, b, setBest).0, genesis, fate);
    }
  }

  // ---------------------------------------------------------------- whole runs

  datatype Event =
    | Block(b: Candidate, setBest: bool, fate: Fate)
    | Checkpoint(c: BlockId, fate: Fate)

  ghost function After(s: State, genesis: BlockId, e: Event): State
    requires Safe(s, genesis)
  {
    match e
    case Block(b, setBest, fate) => Accepted(s, genesis, b, setBest, fate).0
    case Checkpoint(c, fate) => Processed(s, genesis, c, fate).0
  }

  ghost predicate IsRun(states: seq<State>, events: seq<Event>, genesis: BlockId) {
    && |states| == |events| + 1 && Safe(states[0], genesis)
    && forall i :: 0 <= i < |events| ==> EventAt(states, events, genesis, i)
  }

  ghost predicate EventAt(states: seq<State>, events: seq<Event>, genesis: BlockId, i: nat)
    requires |states| == |events| + 1 && i < |events|
  {
    Safe(states[i], genesis) ==> states[i + 1] == After(states[i], genesis, events[i])
  }

  lemma {:induction false} AfterSafe(s: State, genesis: BlockId, e: Event)
    requires Safe(s, genesis)
    ensures Safe(After(s, genesis, e), genesis) && Advances(s, After(s, genesis, e), genesis)
  {
    match e
    case Block(b, setBest, fate) => AcceptedSafe(s, genesis, b, setBest, fate);
    case Checkpoint(c, fate) => ProcessedSafe(s, genesis, c, fate);
  }

  /** In every state of every run the checkpoint is the best block or one of its ancestors. */
  lemma {:induction false} CheckpointOnBestChain(states: seq<State>, events: seq<Event>, genesis: BlockId, i: nat)
    requires IsRun(states, events, genesis) && i < |states|
    ensures Safe(states[i], genesis)
  {
    if i > 0 {
      CheckpointOnBestChain(states, events, genesis, i - 1);
      assert EventAt(states, events, genesis, i - 1);
      AfterSafe(states[i - 1], genesis, events[i - 1]);
    }
  }

  lemma {:induction false} AdvancesTransitive(s: State, u: State, v: State, genesis: BlockId)
    requires Safe(s, genesis) && Safe(u, genesis) && Safe(v, genesis)
    requires Advances(s, u, genesis) && Advances(u, v, genesis)
    ensures Advances(s, v, genesis)
  {
    AncestorGrown(u.tree, v.tree, genesis, s.syncPoint, u.syncPoint);
    assert Grown(s.tree, v.tree, genesis);
    assert AncestorOrSelf(v.tree, genesis, s.syncPoint, u.syncPoint);
    AncestorTransitive(v.tree, genesis, s.syncPoint, u.syncPoint, v.syncPoint);
    SamePlace(v.tree, genesis, s.syncPoint, u.syncPoint, v.syncPoint);
    forall b | b in v.tree && b !in s.tree ensures StrictDescendant(v.tree, genesis, s.syncPoint, b) {
      if b in u.tree {
        AncestorGrown(u.tree, v.tree, genesis, s.syncPoint, b);
      } else {
        AncestorTransitive(v.tree, genesis, s.syncPoint, u.syncPoint, b);
      }
    }
  }

  /** Going down and coming back to the same block means not having moved. */
  lemma {:induction false} SamePlace(t: Tree, genesis: BlockId, a: BlockId, b: BlockId, c: BlockId)
    requires WellFormed(t, genesis) && a in t && b in t && c in t
    requires AncestorOrSelf(t, genesis, a, b) && AncestorOrSelf(t, genesis, b, c)
    ensures a == c ==> a == b
  {
  }

  /** From any moment of any run on: the checkpoint of that moment stays an ancestor of every later
      checkpoint and of every later best block, and every block accepted later descends from it. */
  lemma {:induction false} CheckpointIsFinal(states: seq<State>, events: seq<Event>, genesis: BlockId, i: nat, j: nat)
    requires IsRun(states, events, genesis) && i <= j < |states|
    ensures Safe(states[i], genesis) && Safe(states[j], genesis) && Advances(states[i], states[j], genesis)
    ensures AncestorOrSelf(states[j].tree, genesis, states[i].syncPoint, states[j].best)
    decreases j - i
  {
    CheckpointOnBestChain(states, events, genesis, i);
    CheckpointOnBestChain(states, events, genesis, j);
    if i < j {
      CheckpointIsFinal(states, events, genesis, i, j - 1);
      assert EventAt(states, events, genesis, j - 1);
      AfterSafe(states[j - 1], genesis, events[j - 1]);
      AdvancesTransitive(states[i], states[j - 1], states[j], genesis);
    }
    AncestorTransitive(states[j].tree, genesis, states[i].syncPoint, states[j].syncPoint, states[j].best);
  }

  // ---------------------------------------------------------------- the code

  class Checkpoints {
    const genesis: BlockId
    var mapBlockIndex: Tree
    var pindexBest: BlockId
    var hashSyncCheckpoint: BlockId
    var hashPendingCheckpoint: BlockId
    var hashInvalidCheckpoint: BlockId

    ghost function Now(): State
      reads this
    {
      State(mapBlockIndex, pindexBest, hashSyncCheckpoint, hashPendingCheckpoint, hashInvalidCheckpoint)
    }

    ghost predicate Valid()
      reads this
    {
      Safe(Now(), genesis)
    }

    /** The genesis block is the first checkpoint. */
    constructor (genesis: BlockId, record: BlockIndex)
      requires record.prev == None && record.height == 0
      ensures Valid() && this.genesis == genesis
      ensures Now() == State(map[genesis := record], genesis, genesis, 0, 0)
    {
      this.genesis := genesis;
      mapBlockIndex, pindexBest, hashSyncCheckpoint := map[genesis := record], genesis, genesis;
      hashPendingCheckpoint, hashInvalidCheckpoint := 0, 0;
    }

    /** Whether `a` is `b` or an ancestor of it, by walking back from `b`. */
    method Leads(a: BlockId, b: BlockId) returns (r: bool)
      requires Valid() && a in mapBlockIndex && b in mapBlockIndex
      ensures r == AncestorOrSelf(mapBlockIndex, genesis, a, b)
    {
      var x := WalkBack(mapBlockIndex, genesis, b, mapBlockIndex[a].height);
      return x == a;
    }

    method CheckSync(hashBlock: BlockId, pindexPrev: BlockId) returns (r: bool)
      requires Valid() && pindexPrev in mapBlockIndex
      ensures r == PassesSync(Now(), genesis, hashBlock, pindexPrev)
    {
      var nHeight := mapBlockIndex[pindexPrev].height + 1;
      var nSync := mapBlockIndex[hashSyncCheckpoint].height;
      if nHeight > nSync {
        var pindex := WalkBack(mapBlockIndex, genesis, pindexPrev, nSync);
        if mapBlockIndex[pindex].height < nSync || pindex != hashSyncCheckpoint {
          return false;
        }
      }
      if nHeight == nSync && hashBlock != hashSyncCheckpoint {
        return false;
      }
      if nHeight < nSync && hashBlock !in mapBlockIndex {
        return false;
      }
      return true;
    }

    method ValidateSyncCheckpoint(hashCheckpoint: BlockId) returns (r: bool)
      requires Valid()
      modifies this`hashInvalidCheckpoint
      ensures r == Validates(old(Now()), genesis, hashCheckpoint)
      ensures Now() == Validated(old(Now()), genesis, hashCheckpoint)
    {
      if hashCheckpoint !in mapBlockIndex {
        return false;
      }
      if mapBlockIndex[hashCheckpoint].height <= mapBlockIndex[hashSyncCheckpoint].height {
        var older := Leads(hashCheckpoint, hashSyncCheckpoint);
        if !older {
          hashInvalidCheckpoint := hashCheckpoint;
        }
        return false;
      }
      var descends := Leads(hashSyncCheckpoint, hashCheckpoint);
      if !descends {
        hashInvalidCheckpoint := hashCheckpoint;
        return false;
      }
      return true;
    }

    /** The part that ProcessSyncCheckpoint and AcceptPendingSyncCheckpoint share. */
    method TakeCheckpoint(hashCheckpoint: BlockId, fate: Fate) returns (r: bool)
      requires Valid() && Validates(Now(), genesis, hashCheckpoint)
      modifies this
      ensures (Now(), r) == Taken(old(Now()), genesis, hashCheckpoint, fate)
    {
      var inMainChain := Leads(hashCheckpoint, pindexBest);
      if !inMainChain {
        if !fate.read {
          return false;
        }
        if !fate.setBest {
          hashInvalidCheckpoint := hashCheckpoint;
          return false;
        }
        pindexBest := hashCheckpoint;
      }
      if !fate.write {
        return false;
      }
      hashSyncCheckpoint := hashCheckpoint;
      hashPendingCheckpoint := 0;
      return true;
    }

    method ProcessSyncCheckpoint(signed: bool, hashCheckpoint: BlockId, fate: Fate) returns (r: bool)
      requires Valid()
      modifies this
      ensures Valid() && Advances(old(Now()), Now(), genesis)
      ensures !signed ==> !r && Now() == old(Now())
      ensures signed ==> (Now(), r) == Processed(old(Now()), genesis, hashCheckpoint, fate)
      ensures signed && hashCheckpoint !in old(mapBlockIndex) ==>
        !r && Now() == old(Now()).(pending := hashCheckpoint)
      ensures signed && old(Validates(Now(), genesis, hashCheckpoint)) && fate.read && fate.setBest && fate.write ==>
        r && hashSyncCheckpoint == hashCheckpoint && hashPendingCheckpoint == 0
    {
      if !signed {
        return false;
      }
      ProcessedSafe(Now(), genesis, hashCheckpoint, fate);
      if hashCheckpoint !in mapBlockIndex {
        hashPendingCheckpoint := hashCheckpoint;
        return false;
      }
      var valid := ValidateSyncCheckpoint(hashCheckpoint);
      if !valid {
        return false;
      }
      r := TakeCheckpoint(hashCheckpoint, fate);
    }

    method AcceptPendingSyncCheckpoint(fate: Fate) returns (r: bool)
      requires Valid()
      modifies this
      ensures Valid() && Advances(old(Now()), Now(), genesis)
      ensures (Now(), r) == PendingDone(old(Now()), genesis, fate)
    {
      PendingSafe(Now(), genesis, fate);
      if hashPendingCheckpoint == 0 || hashPendingCheckpoint !in mapBlockIndex {
        return false;
      }
      var valid := ValidateSyncCheckpoint(hashPendingCheckpoint);
      if !valid {
        hashPendingCheckpoint := 0;
        return false;
      }
      r := TakeCheckpoint(hashPendingCheckpoint, fate);
    }

    /** AcceptBlock: a block that enters the index is a strict descendant of the checkpoint. */
    method AcceptBlock(b: Candidate, setBest: bool, fate: Fate) returns (r: bool)
      requires Valid()
      requires b.record.prev.Some? && b.record.prev.value in mapBlockIndex ==>
        b.record.height == mapBlockIndex[b.record.prev.value].height + 1
      modifies this
      ensures Valid() && Advances(old(Now()), Now(), genesis)
      ensures (Now(), r) == Accepted(old(Now()), genesis, b, setBest, fate)
    {
      AcceptedSafe(Now(), genesis, b, setBest, fate);
      if b.id in mapBlockIndex || b.record.prev == None || b.record.prev.value !in mapBlockIndex || !b.checks {
        return false;
      }
      var cpSatisfies := CheckSync(b.id, b.record.prev.value);
      if !cpSatisfies {
        return false;
      }
      RecordedSafe(Now(), genesis, b, setBest);
      var nBestChainTrust := mapBlockIndex[pindexBest].chainTrust;
      mapBlockIndex := mapBlockIndex[b.id := b.record];
      if b.record.chainTrust > nBestChainTrust {
        if !setBest {
          return false;
        }
        pindexBest := b.id;
      }
      var _ := AcceptPendingSyncCheckpoint(fate);
      return true;
    }
  }
}
