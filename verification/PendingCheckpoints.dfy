/** When a synchronized checkpoint is taken (checkpoints.cpp): a message for a known block at once, a
    message for an unknown one when its block arrives. */
module PendingCheckpoints {
  import opened Basics
  import opened BlockTree
  import opened SyncCheckpoints

  // ---------------------------------------------------------------- one message

  /** Every step of making `c` the checkpoint succeeds: where its chain is not the best one already,
      reading its block and SetBestChain, and in any case writing it. */
  ghost predicate Succeeds(s: State, genesis: BlockId, c: BlockId, fate: Fate)
    requires Safe(s, genesis) && c in s.tree
  {
    (AncestorOrSelf(s.tree, genesis, c, s.best) || (fate.read && fate.setBest)) && fate.write
  }

  /** A message for an unknown block is remembered, and changes nothing else. */
  lemma {:induction false} UnknownIsRemembered(s: State, genesis: BlockId, c: BlockId, fate: Fate)
    requires Safe(s, genesis) && c !in s.tree
    ensures var u := After(s, genesis, Checkpoint(c, fate));
      u.pending == c && u.tree == s.tree && u.best == s.best && u.syncPoint == s.syncPoint && u.invalid == s.invalid
  {
  }

  /** A message for a known strict descendant of the checkpoint moves the checkpoint there exactly if
      every step succeeds; its chain is then the best one, and nothing is pending. */
  lemma {:induction false} KnownIsTaken(s: State, genesis: BlockId, c: BlockId, fate: Fate)
    requires Safe(s, genesis) && c in s.tree && StrictDescendant(s.tree, genesis, s.syncPoint, c)
    ensures var u := After(s, genesis, Checkpoint(c, fate));
      && u.tree == s.tree
      && (u.syncPoint == c <==> Succeeds(s, genesis, c, fate))
      && (u.syncPoint != c ==> u.syncPoint == s.syncPoint && u.pending == s.pending)
      && (u.syncPoint == c ==> u.pending == 0 && u.best == if AncestorOrSelf(s.tree, genesis, c, s.best) then s.best else c)
  {
  }

  /** A message for any other known block only marks it as invalid, if it is on another branch. */
  lemma {:induction false} OtherIsRefused(s: State, genesis: BlockId, c: BlockId, fate: Fate)
    requires Safe(s, genesis) && c in s.tree && !StrictDescendant(s.tree, genesis, s.syncPoint, c)
    ensures var u := After(s, genesis, Checkpoint(c, fate));
      && u.tree == s.tree && u.best == s.best && u.syncPoint == s.syncPoint && u.pending == s.pending
      && u.invalid == if AncestorOrSelf(s.tree, genesis, c, s.syncPoint) then s.invalid else c
  {
    SelfAncestor(s.tree, genesis, c);
  }

  // ---------------------------------------------------------------- one block

  /** The block with the more trust, if SetBestChain succeeds. */
  ghost function BestAfter(s: State, b: Candidate, setBest: bool): BlockId
    requires s.best in s.tree
  {
    if b.record.chainTrust > s.tree[s.best].chainTrust && setBest then b.id else s.best
  }

  /** An acceptable block is recorded; with more trust it becomes the best one if SetBestChain succeeds.
      Where nothing known is pending that is all. */
  lemma {:induction false} BlockIsRecorded(s: State, genesis: BlockId, b: Candidate, setBest: bool, fate: Fate)
    requires Safe(s, genesis) && Acceptable(s, genesis, b)
    requires s.pending != 0 ==> s.pending !in s.tree && s.pending != b.id
    ensures After(s, genesis, Block(b, setBest, fate)) == s.(tree := s.tree[b.id := b.record], best := BestAfter(s, b, setBest))
  {
    RecordedSafe(s, genesis, b, setBest);
  }

  lemma {:induction false} RefusedChangesNothing(s: State, genesis: BlockId, b: Candidate, setBest: bool, fate: Fate)
    requires Safe(s, genesis) && !Acceptable(s, genesis, b)
    ensures After(s, genesis, Block(b, setBest, fate)) == s
  {
  }

  /** The block of the pending checkpoint arrives. */
  lemma {:induction false} PendingBlockArrives(s: State, genesis: BlockId, b: Candidate, setBest: bool, fate: Fate)
    requires Safe(s, genesis) && Acceptable(s, genesis, b) && s.pending == b.id != 0
    ensures var u, t := After(s, genesis, Block(b, setBest, fate)), s.tree[b.id := b.record];
      && u.tree == t && WellFormed(t, genesis) && u.best in t
      && (u.syncPoint == b.id <==>
            if b.record.chainTrust > s.tree[s.best].chainTrust then setBest && fate.write
            else fate.read && fate.setBest && fate.write)
      && (u.syncPoint == b.id ==> u.pending == 0 && u.best == b.id)
      && (u.syncPoint != b.id ==> u.syncPoint == s.syncPoint && u.pending == b.id)
  {
    NewBlockDescends(s, genesis, b);
    RecordedSafe(s, genesis, b, setBest);
    var v := Recorded(s, b, setBest).0;
    SelfAncestor(v.tree, genesis, b.id);
    NotOnOldChain(s, genesis, b);
  }

  /** A new block is not on the chain of an old one. */
  lemma {:induction false} NotOnOldChain(s: State, genesis: BlockId, b: Candidate)
    requires Safe(s, genesis) && Acceptable(s, genesis, b)
    ensures var t := s.tree[b.id := b.record];
      WellFormed(t, genesis) && !AncestorOrSelf(t, genesis, b.id, s.best)
  {
    PathAfterInsert(s.tree, genesis, b.id, b.record, s.best);
    var h := b.record.height;
    if h <= s.tree[s.best].height {
      PathPrefix(s.tree, genesis, s.best, h);
    }
  }

  // ---------------------------------------------------------------- whole runs

  /** Event k is a block other than `c`. */
  ghost predicate OtherBlock(e: Event, c: BlockId) { e.Block? && e.b.id != c }

  /** From a message for an unknown block on, blocks other than that block leave it pending, and the
      checkpoint where it is. */
  lemma {:induction false} StaysPending(states: seq<State>, events: seq<Event>, genesis: BlockId, i: nat, j: nat, c: BlockId)
    requires IsRun(states, events, genesis) && i < j <= |events|
    requires Safe(states[i], genesis) && c !in states[i].tree && events[i].Checkpoint? && events[i].c == c
    requires forall k :: i < k < j ==> OtherBlock(events[k], c)
    ensures Safe(states[j], genesis) && states[j].pending == c && c !in states[j].tree
    ensures states[j].syncPoint == states[i].syncPoint
    decreases j
  {
    CheckpointOnBestChain(states, events, genesis, j);
    var k := j - 1;
    assert EventAt(states, events, genesis, k);
    if k == i {
      UnknownIsRemembered(states[i], genesis, c, events[i].fate);
    } else {
      StaysPending(states, events, genesis, i, k, c);
      var Block(b, setBest, fate) := events[k];
      assert OtherBlock(events[k], c);
      if Acceptable(states[k], genesis, b) {
        BlockIsRecorded(states[k], genesis, b, setBest, fate);
      } else {
        RefusedChangesNothing(states[k], genesis, b, setBest, fate);
      }
    }
  }

  /** So when its block is accepted the checkpoint moves there, exactly if every step succeeds, and the
      block is then the best one. */
  lemma {:induction false} PendingIsTaken(states: seq<State>, events: seq<Event>, genesis: BlockId, i: nat, j: nat, b: Candidate)
    requires IsRun(states, events, genesis) && i < j < |events| && b.id != 0
    requires Safe(states[i], genesis) && b.id !in states[i].tree && events[i].Checkpoint? && events[i].c == b.id
    requires forall k :: i < k < j ==> OtherBlock(events[k], b.id)
    requires Safe(states[j], genesis) && events[j].Block? && events[j].b == b && Acceptable(states[j], genesis, b)
    ensures var s, u := states[j], states[j + 1];
      && Safe(u, genesis)
      && (u.syncPoint == b.id <==>
            if b.record.chainTrust > s.tree[s.best].chainTrust then events[j].setBest && events[j].fate.write
            else events[j].fate.read && events[j].fate.setBest && events[j].fate.write)
      && (u.syncPoint == b.id ==>
            && u.pending == 0 && u.best == b.id && states[i].syncPoint in u.tree
            && StrictDescendant(u.tree, genesis, states[i].syncPoint, b.id))
      && (u.syncPoint != b.id ==> u.syncPoint == states[i].syncPoint && u.pending == b.id)
  {
    StaysPending(states, events, genesis, i, j, b.id);
    CheckpointOnBestChain(states, events, genesis, j + 1);
    assert EventAt(states, events, genesis, j);
    PendingBlockArrives(states[j], genesis, b, events[j].setBest, events[j].fate);
    NewBlockDescends(states[j], genesis, b);
  }
}
