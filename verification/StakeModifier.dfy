/** The stake modifier (kernel.cpp): the selection of up to 64 ancestor blocks whose entropy bits
    form the next modifier. */
module StakeModifier {
  import opened Basics
  import opened BlockTree
  import opened MedianTime

  const MODIFIER_INTERVAL := 3600
  const MODIFIER_INTERVAL_RATIO := 3
  const MODIFIER_SWITCH_TIME := 1413763200
  const GENESIS_TIME := 1499445391

  /** What the selection looks at in a CBlockIndex: its hash, time, kind, proof-of-stake hash and
      entropy bit, and the modifier recorded with it. */
  datatype StakeBlock = StakeBlock(id: BlockId, time: nat, proofOfStake: bool, proof: int, entropy: nat,
                                   modifier: nat, generated: bool)

  /** The double SHA-256 of a proof hash and the previous modifier. */
  type SelectionHash = (int, nat) -> nat

  function HashOf(sel: SelectionHash, mod: nat, b: StakeBlock): nat {
    var h := sel(if b.proofOfStake then b.proof else b.id, mod);
    if b.proofOfStake then h / 0x1_0000_0000 else h
  }

  predicate IsFixedModifierInterval(time: nat) { time >= MODIFIER_SWITCH_TIME }

  function IntervalSection(section: nat): nat
    requires section < 64
  {
    MODIFIER_INTERVAL * 63 / (63 + (63 - section) * (MODIFIER_INTERVAL_RATIO - 1))
  }

  /** The first n sections together. */
  function Sections(n: nat): nat
    requires n <= 64
  {
    if n == 0 then 0 else Sections(n - 1) + IntervalSection(n - 1)
  }

  // ---------------------------------------------------------------- sorting the candidates

  /** The order of pair<int64_t, uint256>. */
  predicate Before(a: StakeBlock, b: StakeBlock) {
    a.time < b.time || (a.time == b.time && a.id <= b.id)
  }

  ghost predicate InOrder(q: seq<StakeBlock>) {
    forall i, j :: 0 <= i < j < |q| ==> Before(q[i], q[j])
  }

  function Placed(q: seq<StakeBlock>, b: StakeBlock): (r: seq<StakeBlock>)
    ensures |r| == |q| + 1
  {
    if q == [] || Before(b, q[0]) then [b] + q else [q[0]] + Placed(q[1..], b)
  }

  /** std::sort. */
  function SortedByTime(s: seq<StakeBlock>): (r: seq<StakeBlock>)
    ensures |r| == |s|
  {
    if s == [] then [] else Placed(SortedByTime(s[..|s| - 1]), s[|s| - 1])
  }

  lemma {:induction false} PlacedFacts(q: seq<StakeBlock>, b: StakeBlock)
    ensures multiset(Placed(q, b)) == multiset(q) + multiset{b}
    ensures InOrder(q) ==> InOrder(Placed(q, b))
  {
    if q != [] && !Before(b, q[0]) {
      var r := Placed(q[1..], b);
      PlacedFacts(q[1..], b);
      assert q == [q[0]] + q[1..];
      if InOrder(q) {
        forall j | 0 <= j < |r| ensures Before(q[0], r[j]) {
          assert r[j] in multiset(r);
          assert r[j] == b || r[j] in q[1..];
        }
      }
    }
  }

  lemma {:induction false} SortedFacts(s: seq<StakeBlock>)
    ensures multiset(SortedByTime(s)) == multiset(s) && InOrder(SortedByTime(s))
  {
    if s != [] {
      var k := |s| - 1;
      SortedFacts(s[..k]);
      PlacedFacts(SortedByTime(s[..k]), s[k]);
      assert s == s[..k] + [s[k]];
    }
  }

  // ---------------------------------------------------------------- one selection

  ghost predicate Unselected(cands: seq<StakeBlock>, chosen: set<BlockId>, i: nat)
    requires i < |cands|
  {
    cands[i].id !in chosen
  }

  ghost predicate InTime(cands: seq<StakeBlock>, chosen: set<BlockId>, stop: int, i: nat)
    requires i < |cands|
  {
    Unselected(cands, chosen, i) && cands[i].time <= stop
  }

  /** Candidate i has the first minimal hash among the unselected ones up to `stop` (below n). */
  ghost predicate FirstMinimum(sel: SelectionHash, mod: nat, cands: seq<StakeBlock>, chosen: set<BlockId>, stop: int, n: nat, i: nat)
    requires i < |cands| && n <= |cands|
  {
    forall j :: 0 <= j < n && InTime(cands, chosen, stop, j) ==>
      && HashOf(sel, mod, cands[i]) <= HashOf(sel, mod, cands[j])
      && (HashOf(sel, mod, cands[i]) == HashOf(sel, mod, cands[j]) ==> i <= j)
  }

  /** The pick of a round: the first minimum among the unselected candidates up to the stop time,
      or the earliest unselected one if there are none. */
  ghost predicate IsPick(sel: SelectionHash, mod: nat, cands: seq<StakeBlock>, chosen: set<BlockId>, stop: int, i: nat) {
    && i < |cands| && Unselected(cands, chosen, i)
    && if exists j :: 0 <= j < |cands| && InTime(cands, chosen, stop, j)
       then cands[i].time <= stop && FirstMinimum(sel, mod, cands, chosen, stop, |cands|, i)
       else forall j :: 0 <= j < i ==> !Unselected(cands, chosen, j)
  }

  lemma {:induction false} PickUnique(sel: SelectionHash, mod: nat, cands: seq<StakeBlock>, chosen: set<BlockId>, stop: int, i: nat, j: nat)
    requires IsPick(sel, mod, cands, chosen, stop, i) && IsPick(sel, mod, cands, chosen, stop, j)
    ensures i == j
  {
    if x :| 0 <= x < |cands| && InTime(cands, chosen, stop, x) {
      assert InTime(cands, chosen, stop, i) && InTime(cands, chosen, stop, j);
    }
  }

  /** SelectBlockFromCandidates: it fails only when every candidate is already selected. */
  method SelectBlockFromCandidates(sel: SelectionHash, mod: nat, cands: seq<StakeBlock>, chosen: set<BlockId>, stop: int)
    returns (pick: Option<nat>)
    requires InOrder(cands)
    ensures pick.Some? ==> IsPick(sel, mod, cands, chosen, stop, pick.value)
    ensures pick.None? <==> forall i :: 0 <= i < |cands| ==> !Unselected(cands, chosen, i)
  {
    pick := None;
    var hashBest := 0;
    var n := 0;
    while n < |cands|
      invariant n <= |cands|
      invariant pick.None? <==> forall j :: 0 <= j < n ==> !Unselected(cands, chosen, j)
      invariant pick.Some? ==> pick.value < n && Unselected(cands, chosen, pick.value)
      invariant pick.Some? ==> hashBest == HashOf(sel, mod, cands[pick.value])
      invariant pick.Some? && cands[pick.value].time <= stop ==> FirstMinimum(sel, mod, cands, chosen, stop, n, pick.value)
      invariant pick.Some? && cands[pick.value].time > stop ==> forall j :: 0 <= j < pick.value ==> !Unselected(cands, chosen, j)
    {
      if pick.Some? && cands[n].time > stop {
        assert forall j :: n <= j < |cands| ==> !InTime(cands, chosen, stop, j);
        break;
      }
      assert Unselected(cands, chosen, n) <==> cands[n].id !in chosen;
      if cands[n].id !in chosen {
        var hashSelection := HashOf(sel, mod, cands[n]);
        if pick.Some? && hashSelection < hashBest {
          assert cands[pick.value].time <= stop;
          hashBest, pick := hashSelection, Some(n);
        } else if pick.None? {
          hashBest, pick := hashSelection, Some(n);
        }
      }
      n := n + 1;
    }
    if pick.Some? && cands[pick.value].time <= stop {
      assert InTime(cands, chosen, stop, pick.value);
    }
  }

  // ---------------------------------------------------------------- all rounds

  ghost function Ids(cands: seq<StakeBlock>, picks: seq<nat>): (r: set<BlockId>)
    requires forall k :: 0 <= k < |picks| ==> picks[k] < |cands|
  {
    set k | 0 <= k < |picks| :: cands[picks[k]].id
  }

  /** Round r of the selection picks picks[r], given the picks before it. */
  ghost predicate RoundOk(sel: SelectionHash, mod: nat, cands: seq<StakeBlock>, start: int, picks: seq<nat>, r: nat)
    requires r < |picks| <= 64
  {
    && (forall k :: 0 <= k < r ==> picks[k] < |cands|)
    && IsPick(sel, mod, cands, Ids(cands, picks[..r]), start + Sections(r + 1), picks[r])
  }

  ghost predicate IsSelection(sel: SelectionHash, mod: nat, cands: seq<StakeBlock>, start: int, picks: seq<nat>) {
    |picks| <= 64 && forall r :: 0 <= r < |picks| ==> RoundOk(sel, mod, cands, start, picks, r)
  }

  ghost predicate DistinctIds(cands: seq<StakeBlock>) {
    forall i, j :: 0 <= i < j < |cands| ==> cands[i].id != cands[j].id
  }

  /** The picks of different rounds are different blocks. */
  lemma {:induction false} PicksDistinct(sel: SelectionHash, mod: nat, cands: seq<StakeBlock>, start: int, picks: seq<nat>)
    requires IsSelection(sel, mod, cands, start, picks)
    ensures forall k :: 0 <= k < |picks| ==> picks[k] < |cands|
    ensures Distinct(picks)
  {
    forall r | 0 <= r < |picks| ensures picks[r] < |cands| {
      assert RoundOk(sel, mod, cands, start, picks, r);
    }
    forall i, j | 0 <= i < j < |picks| ensures picks[i] != picks[j] {
      assert RoundOk(sel, mod, cands, start, picks, j);
      assert picks[..j][i] == picks[i];
      assert cands[picks[i]].id in Ids(cands, picks[..j]);
    }
  }

  /** Fewer picks than candidates leave a candidate unselected. */
  lemma {:induction false} SomeUnselected(cands: seq<StakeBlock>, picks: seq<nat>) returns (i: nat)
    requires |picks| < |cands| && Distinct(picks) && DistinctIds(cands)
    requires forall k :: 0 <= k < |picks| ==> picks[k] < |cands|
    ensures i < |cands| && Unselected(cands, Ids(cands, picks), i)
  {
    i := Missing(|cands|, picks);
    forall k | 0 <= k < |picks| ensures cands[picks[k]].id != cands[i].id {
      assert picks[k] != i;
    }
  }

  /** Some number below n is not among fewer than n. */
  lemma {:induction false} Missing(n: nat, picks: seq<nat>) returns (i: nat)
    requires |picks| < n && Distinct(picks)
    ensures i < n && i !in picks
    decreases n
  {
    if n - 1 !in picks {
      return n - 1;
    }
    var k :| 0 <= k < |picks| && picks[k] == n - 1;
    var rest := picks[..k] + picks[k + 1..];
    i := Missing(n - 1, rest);
    forall x | 0 <= x < |picks| ensures picks[x] != i {
      if x < k {
        assert rest[x] == picks[x];
      } else if x > k {
        assert rest[x - 1] == picks[x];
      }
    }
  }

  /** The selection is determined by the candidates, the previous modifier and the start time. */
  lemma {:induction false} SelectionUnique(sel: SelectionHash, mod: nat, cands: seq<StakeBlock>, start: int, p: seq<nat>, q: seq<nat>, n: nat)
    requires IsSelection(sel, mod, cands, start, p) && IsSelection(sel, mod, cands, start, q) && n <= |p| && n <= |q|
    ensures p[..n] == q[..n]
  {
    if n > 0 {
      SelectionUnique(sel, mod, cands, start, p, q, n - 1);
      assert RoundOk(sel, mod, cands, start, p, n - 1) && RoundOk(sel, mod, cands, start, q, n - 1);
      PickUnique(sel, mod, cands, Ids(cands, p[..n - 1]), start + Sections(n), p[n - 1], q[n - 1]);
      assert p[..n] == p[..n - 1] + [p[n - 1]] && q[..n] == q[..n - 1] + [q[n - 1]];
    }
  }

  function Shifted(bit: nat, n: nat): nat { bit * Pow2(n) }

  /** The modifier whose bit r is the entropy bit of the block picked in round r. */
  function Bits(cands: seq<StakeBlock>, picks: seq<nat>): nat
    requires forall k :: 0 <= k < |picks| ==> picks[k] < |cands|
  {
    if picks == [] then 0
    else
      var r := |picks| - 1;
      Bits(cands, picks[..r]) + Shifted(cands[picks[r]].entropy, r)
  }

  /** The loop of 64 rounds; it never fails. */
  method SelectBlocks(sel: SelectionHash, mod: nat, cands: seq<StakeBlock>, start: int) returns (r: Option<nat>, picks: seq<nat>)
    requires InOrder(cands) && DistinctIds(cands)
    ensures IsSelection(sel, mod, cands, start, picks) && |picks| == Min(64, |cands|)
    ensures forall k :: 0 <= k < |picks| ==> picks[k] < |cands|
    ensures r == Some(Bits(cands, picks))
  {
    picks := [];
    var modifier: nat, stop: int, chosen: set<BlockId> := 0, start, {};
    for nRound := 0 to Min(64, |cands|)
      invariant |picks| == nRound && stop == start + Sections(nRound)
      invariant Selected(sel, mod, cands, start, picks, chosen, modifier)
    {
      stop := stop + IntervalSection(nRound);
      var pick := SelectOne(sel, mod, cands, start, picks, chosen, modifier, stop);
      if pick.None? {
        return None, picks;
      }
      modifier := modifier + Shifted(cands[pick.value].entropy, nRound);
      chosen := chosen + {cands[pick.value].id};
      picks := picks + [pick.value];
    }
    r := Some(modifier);
  }

  /** One round; what it means for the loop variables. */
  method SelectOne(sel: SelectionHash, mod: nat, cands: seq<StakeBlock>, ghost start: int, ghost picks: seq<nat>,
                   chosen: set<BlockId>, ghost modifier: nat, stop: int) returns (pick: Option<nat>)
    requires Selected(sel, mod, cands, start, picks, chosen, modifier) && InOrder(cands) && DistinctIds(cands)
    requires |picks| < 64 && |picks| < |cands| && stop == start + Sections(|picks| + 1)
    ensures pick.Some? && pick.value < |cands|
    ensures Selected(sel, mod, cands, start, picks + [pick.value], chosen + {cands[pick.value].id},
              modifier + Shifted(cands[pick.value].entropy, |picks|))
  {
    NotAllSelected(sel, mod, cands, start, picks, chosen, modifier);
    pick := SelectBlockFromCandidates(sel, mod, cands, chosen, stop);
    SelectedNext(sel, mod, cands, start, picks, chosen, modifier, pick.value);
  }

  /** The loop variables after the rounds of `picks`. */
  ghost predicate Selected(sel: SelectionHash, mod: nat, cands: seq<StakeBlock>, start: int, picks: seq<nat>,
                           chosen: set<BlockId>, modifier: nat) {
    && IsSelection(sel, mod, cands, start, picks) && (forall k :: 0 <= k < |picks| ==> picks[k] < |cands|)
    && chosen == Ids(cands, picks) && modifier == Bits(cands, picks)
  }

  /** Before every round some candidate is unselected. */
  lemma {:induction false} NotAllSelected(sel: SelectionHash, mod: nat, cands: seq<StakeBlock>, start: int, picks: seq<nat>,
                       chosen: set<BlockId>, modifier: nat)
    requires Selected(sel, mod, cands, start, picks, chosen, modifier) && |picks| < |cands| && DistinctIds(cands)
    ensures exists i :: 0 <= i < |cands| && Unselected(cands, chosen, i)
  {
    PicksDistinct(sel, mod, cands, start, picks);
    var free := SomeUnselected(cands, picks);
  }

  lemma {:induction false} SelectedNext(sel: SelectionHash, mod: nat, cands: seq<StakeBlock>, start: int, picks: seq<nat>,
                     chosen: set<BlockId>, modifier: nat, i: nat)
    requires Selected(sel, mod, cands, start, picks, chosen, modifier) && |picks| < 64
    requires IsPick(sel, mod, cands, chosen, start + Sections(|picks| + 1), i)
    ensures Selected(sel, mod, cands, start, picks + [i], chosen + {cands[i].id}, modifier + Shifted(cands[i].entropy, |picks|))
  {
    SelectionExtends(sel, mod, cands, start, picks, i);
  }

  lemma {:induction false} SelectionExtends(sel: SelectionHash, mod: nat, cands: seq<StakeBlock>, start: int, picks: seq<nat>, i: nat)
    requires IsSelection(sel, mod, cands, start, picks) && |picks| < 64
    requires forall k :: 0 <= k < |picks| ==> picks[k] < |cands|
    requires IsPick(sel, mod, cands, Ids(cands, picks), start + Sections(|picks| + 1), i)
    ensures IsSelection(sel, mod, cands, start, picks + [i])
    ensures Ids(cands, picks + [i]) == Ids(cands, picks) + {cands[i].id}
    ensures Bits(cands, picks + [i]) == Bits(cands, picks) + Shifted(cands[i].entropy, |picks|)
  {
    var q := picks + [i];
    forall r | 0 <= r < |q| ensures RoundOk(sel, mod, cands, start, q, r) {
      if r < |picks| {
        assert RoundOk(sel, mod, cands, start, picks, r);
        assert q[..r] == picks[..r];
      } else {
        assert q[..r] == picks;
      }
    }
    ExtendedIds(cands, picks, i);
  }

  lemma {:induction false} ExtendedIds(cands: seq<StakeBlock>, picks: seq<nat>, i: nat)
    requires i < |cands| && forall k :: 0 <= k < |picks| ==> picks[k] < |cands|
    ensures Ids(cands, picks + [i]) == Ids(cands, picks) + {cands[i].id}
    ensures Bits(cands, picks + [i]) == Bits(cands, picks) + Shifted(cands[i].entropy, |picks|)
  {
    var q := picks + [i];
    assert q[..|picks|] == picks;
    forall x ensures x in Ids(cands, q) <==> x in Ids(cands, picks) + {cands[i].id} {
      if x in Ids(cands, picks) {
        var k :| 0 <= k < |picks| && cands[picks[k]].id == x;
        assert q[k] == picks[k];
      }
      if x == cands[i].id {
        assert q[|picks|] == i;
      }
    }
  }

  /** With entropy bits, the sum is the bitwise union and fits 64 bits. */
  lemma {:induction false} BitsFit(cands: seq<StakeBlock>, picks: seq<nat>)
    requires forall k :: 0 <= k < |picks| ==> picks[k] < |cands|
    requires forall i :: 0 <= i < |cands| ==> cands[i].entropy <= 1
    ensures Bits(cands, picks) < Pow2(|picks|)
  {
    if picks != [] {
      var r := |picks| - 1;
      BitsFit(cands, picks[..r]);
      BitFits(cands[picks[r]].entropy, r);
    }
  }

  lemma {:induction false} BitFits(bit: nat, n: nat)
    requires bit <= 1
    ensures Shifted(bit, n) <= Pow2(n)
  {
  }

  // ---------------------------------------------------------------- the next modifier of a chain

  /** The position of the last block that generated a modifier, or of the first block. */
  function LastGenerated(chain: seq<StakeBlock>): (i: nat)
    requires chain != []
    ensures i < |chain|
    ensures i == 0 || chain[i].generated
    ensures forall j :: i < j < |chain| ==> !chain[j].generated
  {
    var k := |chain| - 1;
    if k == 0 || chain[k].generated then k else LastGenerated(chain[..k])
  }

  /** Where the blocks from `start` time on begin, going back from the end without a gap. */
  function FirstCandidate(chain: seq<StakeBlock>, start: int): (k: nat)
    ensures k <= |chain|
    ensures forall j :: k <= j < |chain| ==> chain[j].time >= start
    ensures k > 0 ==> chain[k - 1].time < start
  {
    if chain == [] || chain[|chain| - 1].time < start then |chain| else FirstCandidate(chain[..|chain| - 1], start)
  }

  function SelectionStart(prev: StakeBlock): int {
    prev.time / MODIFIER_INTERVAL * MODIFIER_INTERVAL - Sections(64)
  }

  function Candidates(chain: seq<StakeBlock>): seq<StakeBlock>
    requires chain != []
  {
    SortedByTime(chain[FirstCandidate(chain, SelectionStart(chain[|chain| - 1]))..])
  }

  /** No new modifier: the last one is from the interval of the previous block or a later one, or,
      under the fixed-interval rule, of the current block. */
  predicate KeepsModifier(last: StakeBlock, prev: StakeBlock, time: nat) {
    || last.time / MODIFIER_INTERVAL >= prev.time / MODIFIER_INTERVAL
    || (last.time / MODIFIER_INTERVAL >= time / MODIFIER_INTERVAL && IsFixedModifierInterval(time))
  }

  /** What a block with these ancestors and this time gets recorded. */
  ghost predicate IsNextModifier(sel: SelectionHash, chain: seq<StakeBlock>, time: nat, modifier: nat, generated: bool) {
    if chain == [] then modifier == 0 && generated
    else
      var last := chain[LastGenerated(chain)];
      if KeepsModifier(last, chain[|chain| - 1], time) then modifier == last.modifier && !generated
      else generated && exists picks :: IsNewModifier(sel, chain, picks, modifier)
  }

  ghost predicate IsNewModifier(sel: SelectionHash, chain: seq<StakeBlock>, picks: seq<nat>, modifier: nat)
    requires chain != []
  {
    var cands := Candidates(chain);
    var last, prev := chain[LastGenerated(chain)], chain[|chain| - 1];
    && IsSelection(sel, last.modifier, cands, SelectionStart(prev), picks) && |picks| == Min(64, |cands|)
    && (forall k :: 0 <= k < |picks| ==> picks[k] < |cands|)
    && modifier == Bits(cands, picks)
  }

  /** The recorded modifier is determined by the ancestors and the block's time. */
  lemma {:induction false} NextModifierUnique(sel: SelectionHash, chain: seq<StakeBlock>, time: nat, m: nat, g: bool, m': nat, g': bool)
    requires IsNextModifier(sel, chain, time, m, g) && IsNextModifier(sel, chain, time, m', g')
    ensures m == m' && g == g'
  {
    if chain != [] && !KeepsModifier(chain[LastGenerated(chain)], chain[|chain| - 1], time) {
      var p :| IsNewModifier(sel, chain, p, m);
      var q :| IsNewModifier(sel, chain, q, m');
      var last, prev := chain[LastGenerated(chain)], chain[|chain| - 1];
      SelectionUnique(sel, last.modifier, Candidates(chain), SelectionStart(prev), p, q, |p|);
      assert p[..|p|] == p && q[..|p|] == q;
    }
  }

  lemma {:induction false} CandidatesFit(chain: seq<StakeBlock>)
    requires chain != [] && DistinctIds(chain)
    ensures InOrder(Candidates(chain)) && DistinctIds(Candidates(chain))
  {
    var s := chain[FirstCandidate(chain, SelectionStart(chain[|chain| - 1]))..];
    SortedFacts(s);
    PermutedDistinctIds(s, SortedByTime(s));
  }

  lemma {:induction false} PermutedDistinctIds(s: seq<StakeBlock>, r: seq<StakeBlock>)
    requires DistinctIds(s) && multiset(r) == multiset(s)
    ensures DistinctIds(r)
  {
    forall i, j | 0 <= i < j < |r| ensures r[i].id != r[j].id {
      assert r[i] in multiset(s) && r[j] in multiset(s);
      if r[i] == r[j] {
        assert r == r[..j] + r[j..];
        assert r[i] in r[..j] && r[j] in r[j..];
        OnlyOnce(s, r[j]);
      }
    }
  }

  lemma {:induction false} OnlyOnce(s: seq<StakeBlock>, b: StakeBlock)
    requires DistinctIds(s)
    ensures multiset(s)[b] <= 1
  {
    if s != [] {
      var k := |s| - 1;
      assert s == s[..k] + [s[k]];
      OnlyOnce(s[..k], b);
      assert s[k] !in s[..k];
    }
  }

  // ---------------------------------------------------------------- the code

  /** The stake fields of a CBlockIndex. */
  datatype Stake = Stake(proof: int, entropy: nat, modifier: nat, generated: bool)

  function BlockOf(tree: Tree, stakes: map<BlockId, Stake>, b: BlockId): StakeBlock
    requires b in tree && b in stakes
  {
    var x, y := tree[b], stakes[b];
    StakeBlock(b, x.time, x.proofOfStake, y.proof, y.entropy, y.modifier, y.generated)
  }

  /** The blocks from genesis to `b`. */
  ghost function ChainOf(tree: Tree, stakes: map<BlockId, Stake>, genesis: BlockId, b: BlockId): (r: seq<StakeBlock>)
    requires WellFormed(tree, genesis) && b in tree && stakes.Keys == tree.Keys
    ensures |r| == tree[b].height + 1
    decreases tree[b].height
  {
    if b == genesis then [BlockOf(tree, stakes, b)]
    else ChainOf(tree, stakes, genesis, tree[b].prev.value) + [BlockOf(tree, stakes, b)]
  }

  lemma {:induction false} ChainAt(tree: Tree, stakes: map<BlockId, Stake>, genesis: BlockId, b: BlockId, i: nat)
    requires WellFormed(tree, genesis) && b in tree && stakes.Keys == tree.Keys && i <= tree[b].height
    ensures Path(tree, genesis, b)[i] in tree
    ensures ChainOf(tree, stakes, genesis, b)[i] == BlockOf(tree, stakes, Path(tree, genesis, b)[i])
    decreases tree[b].height
  {
    PathPrefix(tree, genesis, b, i);
    if i < tree[b].height {
      ChainAt(tree, stakes, genesis, tree[b].prev.value, i);
    }
  }

  lemma {:induction false} ChainDistinct(tree: Tree, stakes: map<BlockId, Stake>, genesis: BlockId, b: BlockId)
    requires WellFormed(tree, genesis) && b in tree && stakes.Keys == tree.Keys
    ensures DistinctIds(ChainOf(tree, stakes, genesis, b))
  {
    var c := ChainOf(tree, stakes, genesis, b);
    PathIsDistinct(tree, genesis, b);
    forall i, j | 0 <= i < j < |c| ensures c[i].id != c[j].id {
      ChainAt(tree, stakes, genesis, b, i);
      ChainAt(tree, stakes, genesis, b, j);
    }
  }

  /** Blocks elsewhere in the index do not matter. */
  lemma {:induction false} OtherBranchesIrrelevant(tree: Tree, stakes: map<BlockId, Stake>, genesis: BlockId, b: BlockId,
                                                   n: BlockId, x: BlockIndex, y: Stake)
    requires WellFormed(tree, genesis) && b in tree && stakes.Keys == tree.Keys && n !in tree
    requires x.prev.Some? && x.prev.value in tree && x.height == tree[x.prev.value].height + 1
    ensures WellFormed(tree[n := x], genesis)
    ensures ChainOf(tree[n := x], stakes[n := y], genesis, b) == ChainOf(tree, stakes, genesis, b)
    decreases tree[b].height
  {
    PathAfterInsert(tree, genesis, n, x, b);
    if b != genesis {
      OtherBranchesIrrelevant(tree, stakes, genesis, tree[b].prev.value, n, x, y);
    }
  }

  /** The nearest block that generated a modifier, if there is one. */
  ghost function LastModifier(chain: seq<StakeBlock>): (r: Option<StakeBlock>)
    requires chain != []
    ensures r.Some? <==> exists i :: 0 <= i < |chain| && chain[i].generated
    ensures r.Some? ==> r.value.generated && r.value == chain[LastGenerated(chain)]
  {
    if chain[LastGenerated(chain)].generated then Some(chain[LastGenerated(chain)]) else None
  }

  ghost predicate IsLastModifier(tree: Tree, stakes: map<BlockId, Stake>, genesis: BlockId, b: BlockId, r: Option<StakeBlock>)
    requires WellFormed(tree, genesis) && b in tree && stakes.Keys == tree.Keys
  {
    r == LastModifier(ChainOf(tree, stakes, genesis, b))
  }

  /** GetLastStakeModifier; it fails when not even the genesis block generated one. */
  method GetLastStakeModifier(tree: Tree, stakes: map<BlockId, Stake>, ghost genesis: BlockId, b: BlockId)
    returns (r: Option<StakeBlock>)
    requires WellFormed(tree, genesis) && b in tree && stakes.Keys == tree.Keys
    ensures IsLastModifier(tree, stakes, genesis, b, r)
  {
    ghost var c, p := ChainOf(tree, stakes, genesis, b), Path(tree, genesis, b);
    var pindex := b;
    ChainAt(tree, stakes, genesis, b, tree[b].height);
    while tree[pindex].prev.Some? && !stakes[pindex].generated
      invariant pindex in tree && tree[pindex].height <= tree[b].height && pindex == p[tree[pindex].height]
      invariant c[tree[pindex].height] == BlockOf(tree, stakes, pindex)
      invariant forall j :: tree[pindex].height < j < |c| ==> !c[j].generated
      decreases tree[pindex].height
    {
      StepBack(tree, genesis, b, tree[pindex].height);
      pindex := tree[pindex].prev.value;
      ChainAt(tree, stakes, genesis, b, tree[pindex].height);
    }
    StepBack(tree, genesis, b, tree[pindex].height);
    assert tree[pindex].height == LastGenerated(c);
    if !stakes[pindex].generated {
      return None;
    }
    return Some(BlockOf(tree, stakes, pindex));
  }

  /** The loop that collects the candidates, oldest first after the reversal. */
  method CollectCandidates(tree: Tree, stakes: map<BlockId, Stake>, ghost genesis: BlockId, b: BlockId, start: int)
    returns (cands: seq<StakeBlock>)
    requires WellFormed(tree, genesis) && b in tree && stakes.Keys == tree.Keys
    ensures var c := ChainOf(tree, stakes, genesis, b); cands == c[FirstCandidate(c, start)..]
  {
    ghost var c, p := ChainOf(tree, stakes, genesis, b), Path(tree, genesis, b);
    cands := [];
    var pindex := Some(b);
    ghost var n := |c|;
    ChainAt(tree, stakes, genesis, b, tree[b].height);
    while pindex.Some? && tree[pindex.value].time >= start
      invariant 0 <= n <= |c| && cands == c[n..] && forall j :: n <= j < |c| ==> c[j].time >= start
      invariant if n == 0 then pindex == None else pindex == Some(p[n - 1]) && p[n - 1] in tree && c[n - 1] == BlockOf(tree, stakes, p[n - 1])
      decreases n
    {
      StepBack(tree, genesis, b, n - 1);
      cands := [BlockOf(tree, stakes, pindex.value)] + cands;
      pindex := tree[pindex.value].prev;
      n := n - 1;
      if n > 0 {
        ChainAt(tree, stakes, genesis, b, n - 1);
      }
    }
    CandidateBoundary(c, start, n);
  }

  lemma {:induction false} CandidateBoundary(c: seq<StakeBlock>, start: int, n: nat)
    requires n <= |c| && (forall j :: n <= j < |c| ==> c[j].time >= start) && (n > 0 ==> c[n - 1].time < start)
    ensures FirstCandidate(c, start) == n
  {
  }

  /** ComputeNextStakeModifier for a block after `prev`: when the genesis block has generated a
      modifier it succeeds, and its result depends on the ancestors and the time only. */
  method ComputeNextStakeModifier(sel: SelectionHash, tree: Tree, stakes: map<BlockId, Stake>, ghost genesis: BlockId,
                                  prev: Option<BlockId>, time: nat)
    returns (r: Option<(nat, bool)>)
    requires WellFormed(tree, genesis) && stakes.Keys == tree.Keys && (prev.Some? ==> prev.value in tree)
    ensures prev.None? || stakes[genesis].generated ==> r.Some?
    ensures r.Some? ==>
      IsNextModifier(sel, if prev.Some? then ChainOf(tree, stakes, genesis, prev.value) else [], time, r.value.0, r.value.1)
  {
    if prev.None? {
      return Some((0, true));
    }
    ghost var c := ChainOf(tree, stakes, genesis, prev.value);
    ChainAt(tree, stakes, genesis, prev.value, 0);
    ChainAt(tree, stakes, genesis, prev.value, tree[prev.value].height);
    var last := GetLastStakeModifier(tree, stakes, genesis, prev.value);
    if last.None? {
      return None;
    }
    var pindexPrev := BlockOf(tree, stakes, prev.value);
    if KeepsModifier(last.value, pindexPrev, time) {
      return Some((last.value.modifier, false));
    }
    var nSelectionIntervalStart := SelectionStart(pindexPrev);
    var list := CollectCandidates(tree, stakes, genesis, prev.value, nSelectionIntervalStart);
    var cands := SortedByTime(list);
    ChainDistinct(tree, stakes, genesis, prev.value);
    CandidatesFit(c);
    var modifier;
    var picks;
    modifier, picks := SelectBlocks(sel, last.value.modifier, cands, nSelectionIntervalStart);
    assert IsNewModifier(sel, c, picks, modifier.value);
    return Some((modifier.value, true));
  }

  // ---------------------------------------------------------------- along an accepted chain

  /** Every block got the modifier computed from its ancestors, at a time later than their median. */
  ghost predicate AcceptedChain(sel: SelectionHash, chain: seq<StakeBlock>) {
    && chain != [] && chain[0].time == GENESIS_TIME
    && (forall i :: 0 <= i < |chain| ==> ModifierOk(sel, chain, i))
    && TimesOk(TimesOf(chain))
  }

  ghost predicate ModifierOk(sel: SelectionHash, chain: seq<StakeBlock>, i: nat)
    requires i < |chain|
  {
    IsNextModifier(sel, chain[..i], chain[i].time, chain[i].modifier, chain[i].generated)
  }

  function TimesOf(chain: seq<StakeBlock>): (r: seq<int>)
    ensures |r| == |chain| && forall i :: 0 <= i < |r| ==> r[i] == chain[i].time
  {
    seq(|chain|, i requires 0 <= i < |chain| => chain[i].time)
  }

  /** Every mainnet block falls under the fixed-interval rule. */
  lemma {:induction false} AlwaysFixedInterval(sel: SelectionHash, chain: seq<StakeBlock>, i: nat)
    requires AcceptedChain(sel, chain) && i < |chain|
    ensures IsFixedModifierInterval(chain[i].time)
  {
    if i > 0 {
      LaterThanGenesis(TimesOf(chain), i);
    }
  }

  function Interval(b: StakeBlock): nat { b.time / MODIFIER_INTERVAL }

  /** A block that generates a modifier is in a later interval than the one before that did. */
  lemma {:induction false} NextGenerationIsLater(sel: SelectionHash, chain: seq<StakeBlock>, i: nat)
    requires AcceptedChain(sel, chain) && 0 < i < |chain| && chain[i].generated
    ensures Interval(chain[LastGenerated(chain[..i])]) < Interval(chain[i])
  {
    AlwaysFixedInterval(sel, chain, i);
    assert ModifierOk(sel, chain, i);
  }

  /** The interval numbers of generating blocks strictly increase along the chain. */
  lemma {:induction false} IntervalsIncrease(sel: SelectionHash, chain: seq<StakeBlock>, i: nat, j: nat)
    requires AcceptedChain(sel, chain) && i < j < |chain| && chain[i].generated && chain[j].generated
    ensures Interval(chain[i]) < Interval(chain[j])
    decreases j
  {
    NextGenerationIsLater(sel, chain, j);
    var k := LastGenerated(chain[..j]);
    assert chain[..j][k] == chain[k] && chain[..j][i] == chain[i];
    if i < k {
      IntervalsIncrease(sel, chain, i, k);
    }
  }

  /** Every block carries the modifier of its nearest generating ancestor, or its own. */
  lemma {:induction false} ModifierIsNearest(sel: SelectionHash, chain: seq<StakeBlock>, i: nat)
    requires AcceptedChain(sel, chain) && i < |chain|
    ensures var g := LastGenerated(chain[..i + 1]);
      chain[g].generated && chain[i].modifier == chain[g].modifier
  {
    assert ModifierOk(sel, chain, i) && ModifierOk(sel, chain, 0);
    assert chain[..0] == [] && chain[0].generated;
    var c := chain[..i + 1];
    if !chain[i].generated {
      assert c[..i] == chain[..i];
      assert LastGenerated(c) == LastGenerated(chain[..i]);
      assert chain[..i][LastGenerated(chain[..i])] == chain[LastGenerated(chain[..i])];
    } else {
      assert LastGenerated(c) == i;
    }
  }
}
