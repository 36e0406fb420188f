/** What the stake-modifier selection favours (kernel.cpp), said of the selection hashes themselves,
    of block times and of hours. */
module StakePicks {
  import opened Basics
  import opened BlockTree
  import opened MedianTime
  import opened StakeModifier

  const TWO_32 := 0x1_0000_0000
  const TWO_224 := 0x1_00000000_00000000_00000000_00000000_00000000_00000000_00000000
  const TWO_256 := TWO_224 * TWO_32

  /** An unselected candidate up to the stop time. */
  ghost predicate Competes(cands: seq<StakeBlock>, chosen: set<BlockId>, stop: int, i: nat) {
    i < |cands| && cands[i].id !in chosen && cands[i].time <= stop
  }

  // ---------------------------------------------------------------- one pick

  /** Candidate i beats j: a proof-of-stake block counts with its hash divided by 2^32, a proof-of-work
      block with its hash; among equals the first one wins. */
  ghost predicate Beats(sel: SelectionHash, mod: nat, cands: seq<StakeBlock>, i: nat, j: nat)
    requires i < |cands| && j < |cands|
  {
    var a, b := cands[i], cands[j];
    && (a.proofOfStake && b.proofOfStake ==>
          && sel(a.proof, mod) / TWO_32 <= sel(b.proof, mod) / TWO_32
          && (sel(a.proof, mod) / TWO_32 == sel(b.proof, mod) / TWO_32 ==> i <= j))
    && (!a.proofOfStake && !b.proofOfStake ==>
          && sel(a.id, mod) <= sel(b.id, mod)
          && (sel(a.id, mod) == sel(b.id, mod) ==> i <= j))
    && (!a.proofOfStake && b.proofOfStake ==> sel(a.id, mod) <= sel(b.proof, mod) / TWO_32)
    && (a.proofOfStake && !b.proofOfStake ==> sel(a.proof, mod) / TWO_32 <= sel(b.id, mod))
  }

  /** The pick beats every competing candidate. */
  lemma {:induction false} PickBeats(sel: SelectionHash, mod: nat, cands: seq<StakeBlock>, chosen: set<BlockId>, stop: int, i: nat, j: nat)
    requires IsPick(sel, mod, cands, chosen, stop, i) && Competes(cands, chosen, stop, j)
    ensures Competes(cands, chosen, stop, i) && Beats(sel, mod, cands, i, j)
  {
    assert InTime(cands, chosen, stop, j);
  }

  /** A competing proof-of-stake block keeps every proof-of-work block from being picked whose hash is
      not by chance below 2^224. */
  lemma {:induction false} StakeIsFavoured(sel: SelectionHash, mod: nat, cands: seq<StakeBlock>, chosen: set<BlockId>, stop: int, i: nat, s: nat)
    requires IsPick(sel, mod, cands, chosen, stop, i)
    requires Competes(cands, chosen, stop, s) && cands[s].proofOfStake && sel(cands[s].proof, mod) < TWO_256
    requires forall w: nat :: Competes(cands, chosen, stop, w) && !cands[w].proofOfStake ==> sel(cands[w].id, mod) >= TWO_224
    ensures cands[i].proofOfStake
  {
    PickBeats(sel, mod, cands, chosen, stop, i, s);
  }

  /** With nothing competing the pick is the earliest unselected candidate. */
  lemma {:induction false} NoneCompetes(sel: SelectionHash, mod: nat, cands: seq<StakeBlock>, chosen: set<BlockId>, stop: int, i: nat)
    requires IsPick(sel, mod, cands, chosen, stop, i) && forall j: nat :: !Competes(cands, chosen, stop, j)
    ensures cands[i].id !in chosen && forall j :: 0 <= j < i ==> cands[j].id in chosen
  {
    assert forall j: nat :: j < |cands| ==> (InTime(cands, chosen, stop, j) <==> Competes(cands, chosen, stop, j));
    forall j | 0 <= j < i ensures cands[j].id in chosen {
      assert !Unselected(cands, chosen, j);
    }
  }

  // ---------------------------------------------------------------- the stop times

  lemma {:induction false} QuotientAtLeast(x: nat, d: nat, q: nat)
    requires d > 0
    ensures q * d <= x <==> x / d >= q
  {
    var r := x / d;
    assert r * d <= x < (r + 1) * d;
    if q <= r {
      assert q * d <= r * d;
    } else {
      assert (r + 1) * d <= q * d;
    }
  }

  lemma {:induction false} QuotientGrows(x: nat, d: nat)
    requires d > 2 && x / d >= d
    ensures x / (d - 2) > x / d
  {
    var a := x / d;
    assert a * d <= x;
    assert (a + 1) * (d - 2) == a * d - 2 * a + d - 2;
    QuotientAtLeast(x, d - 2, a + 1);
  }

  lemma {:induction false} SectionAt(n: nat)
    requires n < 64
    ensures Sections(n + 1) - Sections(n) == 226800 / (189 - 2 * n)
  {
  }

  lemma {:induction false} SquareGrows(d: nat, e: nat)
    requires d <= e
    ensures d * d <= e * e
  {
    assert d * d <= d * e <= e * e;
  }

  lemma {:induction false} ShorterDivisor(d: nat)
    requires 2 < d <= 189
    ensures 226800 / (d - 2) > 226800 / d
  {
    SquareGrows(d, 189);
    QuotientAtLeast(226800, d, d);
    QuotientGrows(226800, d);
  }

  /** Round n adds a longer section to the stop time than the round before it, from 20 minutes in the
      first round to an hour in the last. */
  lemma {:induction false} SectionsGrow(n: nat)
    requires 0 < n < 64
    ensures Sections(n + 1) - Sections(n) > Sections(n) - Sections(n - 1)
    ensures Sections(1) - Sections(0) == 20 * 60
    ensures Sections(64) - Sections(63) == 60 * 60
  {
    SectionAt(n - 1);
    SectionAt(n);
    ShorterDivisor(191 - 2 * n);
    SectionAt(0);
    SectionAt(63);
  }

  // ---------------------------------------------------------------- the candidates

  lemma {:induction false} StartOf(prev: StakeBlock)
    ensures SelectionStart(prev) == prev.time - prev.time % 3600 - Sections(64)
  {
  }

  lemma {:induction false} StrictlyInOrder(c: seq<StakeBlock>)
    requires InOrder(c) && DistinctIds(c)
    ensures forall i, j :: 0 <= i < j < |c| ==> c[i].time < c[j].time || (c[i].time == c[j].time && c[i].id < c[j].id)
  {
    forall i, j | 0 <= i < j < |c| ensures c[i].time < c[j].time || (c[i].time == c[j].time && c[i].id < c[j].id) {
      assert Before(c[i], c[j]);
    }
  }

  /** The candidates are the ancestors back to the first that is earlier than the start of the parent's
      hour less all sections, by time and then by hash. */
  lemma {:induction false} CandidatesAre(chain: seq<StakeBlock>) returns (k: nat)
    requires chain != [] && DistinctIds(chain)
    ensures k <= |chain| && multiset(Candidates(chain)) == multiset(chain[k..])
    ensures var time := chain[|chain| - 1].time; var start := time - time % 3600 - Sections(64);
      (forall j :: k <= j < |chain| ==> chain[j].time >= start) && (k > 0 ==> chain[k - 1].time < start)
    ensures var c := Candidates(chain);
      forall i, j :: 0 <= i < j < |c| ==> c[i].time < c[j].time || (c[i].time == c[j].time && c[i].id < c[j].id)
  {
    StartOf(chain[|chain| - 1]);
    k := FirstCandidate(chain, SelectionStart(chain[|chain| - 1]));
    SortedFacts(chain[k..]);
    CandidatesFit(chain);
    StrictlyInOrder(Candidates(chain));
  }

  // ---------------------------------------------------------------- a new modifier

  /** Round r of a selection that starts at `start`: an unselected candidate that beats all that compete. */
  ghost predicate Favoured(sel: SelectionHash, mod: nat, cands: seq<StakeBlock>, start: int, picks: seq<nat>, r: nat)
    requires r < |picks| && r < 64 && forall k :: 0 <= k < |picks| ==> picks[k] < |cands|
  {
    var stop, chosen := start + Sections(r + 1), Ids(cands, picks[..r]);
    && cands[picks[r]].id !in chosen
    && forall j: nat :: Competes(cands, chosen, stop, j) ==>
         Competes(cands, chosen, stop, picks[r]) && Beats(sel, mod, cands, picks[r], j)
  }

  lemma {:induction false} PickFavoured(sel: SelectionHash, mod: nat, cands: seq<StakeBlock>, start: int, picks: seq<nat>, r: nat)
    requires r < |picks| <= 64 && RoundOk(sel, mod, cands, start, picks, r)
    requires forall k :: 0 <= k < |picks| ==> picks[k] < |cands|
    ensures Favoured(sel, mod, cands, start, picks, r)
  {
    var stop, chosen := start + Sections(r + 1), Ids(cands, picks[..r]);
    forall j: nat | Competes(cands, chosen, stop, j)
      ensures Competes(cands, chosen, stop, picks[r]) && Beats(sel, mod, cands, picks[r], j)
    {
      PickBeats(sel, mod, cands, chosen, stop, picks[r], j);
    }
  }

  /** Every round of a new modifier picks in this way, from the start of the parent's hour less all sections. */
  lemma {:induction false} RoundFavours(sel: SelectionHash, chain: seq<StakeBlock>, picks: seq<nat>, modifier: nat, r: nat)
    requires chain != [] && IsNewModifier(sel, chain, picks, modifier) && r < |picks|
    ensures |picks| <= 64 && forall k :: 0 <= k < |picks| ==> picks[k] < |Candidates(chain)|
    ensures var last, time := chain[LastGenerated(chain)], chain[|chain| - 1].time;
      Favoured(sel, last.modifier, Candidates(chain), time - time % 3600 - Sections(64), picks, r)
  {
    var last, start := chain[LastGenerated(chain)], SelectionStart(chain[|chain| - 1]);
    StartOf(chain[|chain| - 1]);
    PicksDistinct(sel, last.modifier, Candidates(chain), start, picks);
    PickFavoured(sel, last.modifier, Candidates(chain), start, picks, r);
  }

  /** Bit r of the modifier is the entropy bit of the pick of round r. */
  lemma {:induction false} BitOfRound(cands: seq<StakeBlock>, picks: seq<nat>, r: nat)
    requires (forall k :: 0 <= k < |picks| ==> picks[k] < |cands|) && r < |picks|
    requires forall i :: 0 <= i < |cands| ==> cands[i].entropy <= 1
    ensures Bits(cands, picks) / Pow2(r) % 2 == cands[picks[r]].entropy
    decreases |picks|
  {
    var k := |picks| - 1;
    var low, bit := Bits(cands, picks[..k]), cands[picks[k]].entropy;
    BitsFit(cands, picks[..k]);
    if r == k {
      BitOnTop(low, bit, Pow2(k));
    } else {
      BitOfRound(cands, picks[..k], r);
      PowerSplits(k, r + 1);
      BitBelow(low, bit * Pow2(k - r - 1), Pow2(r));
      assert Shifted(bit, k) == bit * Pow2(k - r - 1) * (2 * Pow2(r));
    }
  }

  lemma {:induction false} BitOnTop(low: nat, bit: nat, p: nat)
    requires low < p && bit <= 1
    ensures (low + bit * p) / p % 2 == bit
  {
    QuotientOf(low + bit * p, p, bit, low);
  }

  lemma {:induction false} QuotientOf(x: nat, d: nat, q: nat, r: nat)
    requires x == q * d + r && r < d
    ensures x / d == q
  {
    QuotientAtLeast(x, d, q);
    QuotientAtLeast(x, d, q + 1);
  }

  lemma {:induction false} PowerSplits(k: nat, r: nat)
    requires r <= k
    ensures Pow2(k) == Pow2(k - r) * Pow2(r)
    decreases k
  {
    if r < k {
      PowerSplits(k - 1, r);
      assert Pow2(k - r) == 2 * Pow2(k - 1 - r);
      Doubled(Pow2(k - 1 - r), Pow2(r));
    }
  }

  lemma {:induction false} Doubled(a: nat, b: nat)
    ensures (2 * a) * b == 2 * (a * b)
  {
  }

  /** A multiple of 2 * p does not touch the bit at p. */
  lemma {:induction false} BitBelow(low: nat, m: nat, p: nat)
    requires p >= 1
    ensures (low + m * (2 * p)) / p % 2 == low / p % 2
  {
    var q, r := low / p, low % p;
    assert low == q * p + r;
    assert low + m * (2 * p) == (q + 2 * m) * p + r;
    QuotientOf(low + m * (2 * p), p, q + 2 * m, r);
  }

  // ---------------------------------------------------------------- when a modifier is generated

  /** On an accepted chain a block generates a modifier exactly if it is the first, or both its parent
      and itself are in a later hour than the last block that generated one. */
  lemma {:induction false} GeneratesIff(sel: SelectionHash, chain: seq<StakeBlock>, i: nat)
    requires AcceptedChain(sel, chain) && i < |chain|
    ensures chain[i].generated <==>
      i == 0 || exists g :: 0 <= g < i && chain[g].generated && (forall j :: g < j < i ==> !chain[j].generated)
                  && chain[g].time / 3600 < chain[i - 1].time / 3600 && chain[g].time / 3600 < chain[i].time / 3600
  {
    assert ModifierOk(sel, chain, i) && ModifierOk(sel, chain, 0);
    assert chain[..0] == [] && chain[0].generated;
    if i > 0 {
      AlwaysFixedInterval(sel, chain, i);
      var g := LastGenerated(chain[..i]);
      assert chain[..i][g] == chain[g] && chain[..i][i - 1] == chain[i - 1];
      forall j | g < j < i ensures !chain[j].generated {
        assert !chain[..i][j].generated;
      }
    }
  }
}
