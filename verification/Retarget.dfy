/** The retarget rule (GetNextTargetRequired, main.cpp). */
module Retarget {
  import opened Basics
  import opened BlockTree
  import opened BigNum

  const TARGET_SPACING := 3 * 60
  const TARGET_TIMESPAN := 3 * 15 * 60
  const INTERVAL := TARGET_TIMESPAN / TARGET_SPACING

  /** nActualSpacing after the two corrections. */
  function Clamped(spacing: int): int {
    if spacing < 1 then 1 else if spacing > 3 * TARGET_SPACING then 3 * TARGET_SPACING else spacing
  }

  /** A target limit: at most 256 bits, with a sign. */
  type Limit = x: nat | MpiSize(x) <= 33

  /** BN_div rounds towards zero. */
  function Quotient(a: int, b: nat): int
    requires b > 0
  {
    if a >= 0 then a / b else -(-a / b)
  }

  /** What the target is multiplied by, in 2880ths. */
  function Factor(spacing: int): (f: nat)
    ensures 2522 <= f <= 3600 && (spacing == TARGET_SPACING ==> f == 2880)
  {
    (INTERVAL - 1) * TARGET_SPACING + 2 * Clamped(spacing)
  }

  function NextTarget(target: int, spacing: int, limit: nat): (r: int)
    ensures r <= limit && (target >= 0 ==> r >= 0)
  {
    Min(Quotient(target * Factor(spacing), (INTERVAL + 1) * TARGET_SPACING), limit)
  }

  /** nBits required after a block with `bits` whose kind came `spacing` seconds after the one before. */
  function NextBits(bits: nat, spacing: int, limit: Limit): nat {
    Compact32(NextTarget(SetCompact(bits), spacing, limit))
  }

  /** Up to the limit the 32 bits suffice. */
  lemma {:induction false} FitsCompact(target: int, limit: Limit)
    requires 0 <= target <= limit
    ensures Compact32(target) == GetCompact(target)
  {
    MpiSizeMonotone(target, limit);
    Compact32Value(target);
  }

  // ---------------------------------------------------------------- what the rule guarantees

  /** A canonical value of a target that is not negative and within the limit. */
  predicate WithinLimit(bits: nat, limit: nat) {
    Canonical(bits) && 0 <= SetCompact(bits) <= limit
  }

  /** The next target never exceeds the limit, nor five quarters of the previous target. */
  lemma {:induction false} NextBounded(bits: nat, spacing: int, limit: Limit)
    requires SetCompact(bits) >= 0
    ensures WithinLimit(NextBits(bits, spacing, limit), limit)
    ensures 4 * SetCompact(NextBits(bits, spacing, limit)) <= 5 * SetCompact(bits)
  {
    var t := NextTarget(SetCompact(bits), spacing, limit);
    FitsCompact(t, limit);
    CompactLoss(t);
    GetCompactCanonical(t);
    GrowthBound(SetCompact(bits), spacing, limit);
  }

  lemma {:induction false} GrowthBound(target: nat, spacing: int, limit: nat)
    ensures 4 * NextTarget(target, spacing, limit) <= 5 * target
  {
    var f := Factor(spacing);
    Scaled(f, 3600, target);
    var x := target * f;
    assert x <= 3600 * target;
    assert 4 * (x / 2880) <= 5 * target;
  }

  lemma {:induction false} TargetMonotone(target: nat, a: int, b: int, limit: nat)
    requires a <= b
    ensures NextTarget(target, a, limit) <= NextTarget(target, b, limit)
  {
    Scaled(Factor(a), Factor(b), target);
    var x, y := target * Factor(a), target * Factor(b);
    assert x <= y && x / 2880 <= y / 2880;
  }

  /** Slower blocks never make the next target smaller. */
  lemma {:induction false} NextMonotone(bits: nat, a: int, b: int, limit: Limit)
    requires SetCompact(bits) >= 0 && a <= b
    ensures NextBits(bits, a, limit) <= NextBits(bits, b, limit)
    ensures SetCompact(NextBits(bits, a, limit)) <= SetCompact(NextBits(bits, b, limit))
  {
    var s, t := NextTarget(SetCompact(bits), a, limit), NextTarget(SetCompact(bits), b, limit);
    TargetMonotone(SetCompact(bits), a, b, limit);
    FitsCompact(s, limit);
    FitsCompact(t, limit);
    CompactMonotone(s, t);
    GetCompactCanonical(s);
    GetCompactCanonical(t);
    DecodeMonotone(GetCompact(s), GetCompact(t));
  }

  lemma {:induction false} DecodeMonotone(c: nat, d: nat)
    requires Canonical(c) && Canonical(d) && c <= d
    ensures SetCompact(c) <= SetCompact(d)
  {
    CompactExact(c);
    CompactExact(d);
    if SetCompact(d) <= SetCompact(c) {
      CompactMonotone(SetCompact(d), SetCompact(c));
    }
  }

  /** Blocks exactly on target keep nBits. */
  lemma {:induction false} OnTargetKeepsBits(bits: nat, limit: Limit)
    requires Canonical(bits) && SetCompact(bits) <= limit
    ensures SetCompact(bits) >= 0 && NextBits(bits, TARGET_SPACING, limit) == bits
  {
    CompactExact(bits);
    var t := SetCompact(bits);
    var f := Factor(TARGET_SPACING);
    assert f == 2880 && t * f == 2880 * t;
    assert 2880 * t / 2880 == t;
    assert NextTarget(t, TARGET_SPACING, limit) == t;
    FitsCompact(t, limit);
  }

  /** The next target in full: slower blocks than one in three minutes raise it, faster ones lower it. */
  lemma {:induction false} Direction(target: nat, spacing: int, limit: nat)
    requires 1440 <= target < limit
    ensures NextTarget(target, spacing, limit) > target <==> spacing > TARGET_SPACING
    ensures NextTarget(target, spacing, limit) < target <==> spacing < TARGET_SPACING
  {
    var f := Factor(spacing);
    if spacing > TARGET_SPACING {
      Scaled(2882, f, target);
      assert target * f >= 2882 * target;
    } else if spacing < TARGET_SPACING {
      Scaled(f, 2878, target);
      assert target * f <= 2878 * target;
    } else {
      assert target * f == 2880 * target;
    }
  }

  /** Nine minutes or more give five quarters of the target, one second or less gives 2522 parts in 2880. */
  lemma {:induction false} Ends(target: nat, spacing: int, limit: nat)
    ensures spacing >= 3 * TARGET_SPACING ==> NextTarget(target, spacing, limit) == Min(5 * target / 4, limit)
    ensures spacing <= 1 ==> NextTarget(target, spacing, limit) == Min(2522 * target / 2880, limit)
  {
    if spacing >= 3 * TARGET_SPACING {
      assert target * Factor(spacing) == 3600 * target;
      assert 3600 * target / 2880 == 5 * target / 4;
    } else if spacing <= 1 {
      assert target * Factor(spacing) == 2522 * target;
    }
  }

  /** Two quotients by 2880 whose dividends differ by 2 * d. */
  lemma {:induction false} QuotientRise(x: nat, d: nat)
    ensures d / 1440 <= (x + 2 * d) / 2880 - x / 2880 <= d / 1440 + 1
  {
  }

  lemma {:induction false} Unlimited(target: nat, a: int, limit: nat)
    requires 1 <= a <= 3 * TARGET_SPACING
    ensures NextTarget(target, a, limit) == Min((2520 * target + 2 * (a * target)) / 2880, limit)
  {
    assert target * Factor(a) == 2520 * target + 2 * (a * target);
  }

  /** In between every second adds one part in 1440, up to rounding, until the limit. */
  lemma {:induction false} Slope(target: nat, a: int, b: int, limit: nat)
    requires 1 <= a <= b <= 3 * TARGET_SPACING && NextTarget(target, b, limit) < limit
    ensures var rise := NextTarget(target, b, limit) - NextTarget(target, a, limit);
      (b - a) * target / 1440 <= rise <= (b - a) * target / 1440 + 1
  {
    var x, y, d := a * target, b * target, (b - a) * target;
    Distribute(a, b, target);
    Unlimited(target, a, limit);
    Unlimited(target, b, limit);
    Rise(x, y, d, NextTarget(target, a, limit), NextTarget(target, b, limit), target, limit);
  }

  lemma {:induction false} Distribute(a: int, b: int, target: nat)
    requires a <= b
    ensures b * target == a * target + (b - a) * target && (b - a) * target >= 0
  {
  }

  lemma {:induction false} Rise(x: int, y: int, d: nat, s: int, t: int, target: nat, limit: nat)
    requires x >= 0 && y == x + d && t < limit
    requires s == Min((2520 * target + 2 * x) / 2880, limit) && t == Min((2520 * target + 2 * y) / 2880, limit)
    ensures d / 1440 <= t - s <= d / 1440 + 1
  {
    QuotientRise(2520 * target + 2 * x, d);
  }

  /** Rounding the new target to its compact form does not swallow an increase. */
  lemma {:induction false} IncreaseSurvives(before: nat, target: nat)
    requires 1440 <= before && 2880 * target + 2879 >= 2882 * before
    ensures SetCompact(GetCompact(target)) > before
  {
    CompactLoss(target);
  }

  /** The target that the next nBits stand for. */
  lemma {:induction false} BitsDirection(bits: nat, spacing: int, limit: Limit)
    requires Canonical(bits) && 1440 <= SetCompact(bits) < SetCompact(Compact32(limit))
    ensures var next := SetCompact(NextBits(bits, spacing, limit));
      (next > SetCompact(bits) <==> spacing > TARGET_SPACING) && (next < SetCompact(bits) <==> spacing < TARGET_SPACING)
  {
    var t := SetCompact(bits);
    var next := NextTarget(t, spacing, limit);
    FitsCompact(limit, limit);
    CompactLoss(limit);
    FitsCompact(next, limit);
    if spacing > TARGET_SPACING {
      RaisedTarget(t, spacing, limit);
      if next < limit {
        IncreaseSurvives(t, next);
      }
    } else if spacing < TARGET_SPACING {
      Direction(t, spacing, limit);
      CompactLoss(next);
    } else {
      OnTargetKeepsBits(bits, limit);
    }
  }

  lemma {:induction false} RaisedTarget(target: nat, spacing: int, limit: nat)
    requires spacing > TARGET_SPACING
    ensures NextTarget(target, spacing, limit) == limit || 2880 * NextTarget(target, spacing, limit) + 2879 >= 2882 * target
  {
    var x := target * Factor(spacing);
    Scaled(2882, Factor(spacing), target);
    assert x >= 2882 * target;
    assert 2880 * (x / 2880) + 2879 >= x;
  }

  // ---------------------------------------------------------------- the code

  /** The last block of a kind up to `b`, or the genesis block. */
  ghost function LastOfKind(tree: Tree, genesis: BlockId, b: BlockId, proofOfStake: bool): (x: BlockId)
    requires WellFormed(tree, genesis) && b in tree
    ensures x in tree && tree[x].height <= tree[b].height
    decreases tree[b].height
  {
    if b == genesis || tree[b].proofOfStake == proofOfStake then b
    else LastOfKind(tree, genesis, tree[b].prev.value, proofOfStake)
  }

  method GetLastBlockIndex(tree: Tree, ghost genesis: BlockId, b: BlockId, proofOfStake: bool) returns (x: BlockId)
    requires WellFormed(tree, genesis) && b in tree
    ensures x == LastOfKind(tree, genesis, b, proofOfStake)
  {
    x := b;
    while tree[x].prev.Some? && tree[x].proofOfStake != proofOfStake
      invariant x in tree && LastOfKind(tree, genesis, x, proofOfStake) == LastOfKind(tree, genesis, b, proofOfStake)
      decreases tree[x].height
    {
      assert x != genesis;
      x := tree[x].prev.value;
    }
  }

  /** What is required after `last`: the limit for the first two blocks of a kind, else the rule. */
  ghost function Required(tree: Tree, genesis: BlockId, last: BlockId, proofOfStake: bool, limit: Limit): nat
    requires WellFormed(tree, genesis) && last in tree
  {
    var prev := LastOfKind(tree, genesis, last, proofOfStake);
    if prev == genesis then Compact32(limit)
    else
      var prevPrev := LastOfKind(tree, genesis, tree[prev].prev.value, proofOfStake);
      if prevPrev == genesis then Compact32(limit)
      else NextBits(tree[prev].bits, tree[prev].time - tree[prevPrev].time, limit)
  }

  /** GetNextTargetRequired. */
  method GetNextTargetRequired(tree: Tree, ghost genesis: BlockId, last: BlockId, proofOfStake: bool, limit: Limit) returns (bits: nat)
    requires WellFormed(tree, genesis) && last in tree
    ensures bits == Required(tree, genesis, last, proofOfStake, limit)
  {
    var prev := GetLastBlockIndex(tree, genesis, last, proofOfStake);
    if tree[prev].prev.None? {
      return Compact32(limit);
    }
    var prevPrev := GetLastBlockIndex(tree, genesis, tree[prev].prev.value, proofOfStake);
    if tree[prevPrev].prev.None? {
      return Compact32(limit);
    }
    var nActualSpacing := tree[prev].time - tree[prevPrev].time;
    if nActualSpacing < 1 {
      nActualSpacing := 1;
    }
    if nActualSpacing > 3 * TARGET_SPACING {
      nActualSpacing := 3 * TARGET_SPACING;
    }
    var bnNew := SetCompact(tree[prev].bits);
    var nFactor := (INTERVAL - 1) * TARGET_SPACING + nActualSpacing + nActualSpacing;
    assert nFactor == Factor(tree[prev].time - tree[prevPrev].time);
    bnNew := bnNew * nFactor;
    bnNew := Quotient(bnNew, (INTERVAL + 1) * TARGET_SPACING);
    if bnNew > limit {
      bnNew := limit;
    }
    return Compact32(bnNew);
  }

  /** The walk from `b` stops at its nearest ancestor of the kind, itself included, or at genesis. */
  lemma {:induction false} LastOfKindIsNearest(tree: Tree, genesis: BlockId, b: BlockId, proofOfStake: bool) returns (k: nat)
    requires WellFormed(tree, genesis) && b in tree
    ensures k <= tree[b].height && LastOfKind(tree, genesis, b, proofOfStake) == Path(tree, genesis, b)[k]
    ensures k == 0 || (Path(tree, genesis, b)[k] in tree && tree[Path(tree, genesis, b)[k]].proofOfStake == proofOfStake)
    ensures forall i :: k < i <= tree[b].height ==>
      Path(tree, genesis, b)[i] in tree && tree[Path(tree, genesis, b)[i]].proofOfStake != proofOfStake
    decreases tree[b].height
  {
    if b == genesis || tree[b].proofOfStake == proofOfStake {
      return tree[b].height;
    }
    k := LastOfKindIsNearest(tree, genesis, tree[b].prev.value, proofOfStake);
  }

  /** After `last` the kind has had at least two blocks after genesis: the last had `bits` and came
      `spacing` seconds after the one before. */
  ghost predicate Retargets(tree: Tree, genesis: BlockId, last: BlockId, proofOfStake: bool, bits: nat, spacing: int)
    requires WellFormed(tree, genesis) && last in tree
  {
    var prev := LastOfKind(tree, genesis, last, proofOfStake);
    && prev != genesis
    && var prevPrev := LastOfKind(tree, genesis, tree[prev].prev.value, proofOfStake);
       prevPrev != genesis && bits == tree[prev].bits && spacing == tree[prev].time - tree[prevPrev].time
  }

  lemma {:induction false} RequiredIs(tree: Tree, genesis: BlockId, last: BlockId, proofOfStake: bool, limit: Limit, bits: nat, spacing: int)
    requires WellFormed(tree, genesis) && last in tree && Retargets(tree, genesis, last, proofOfStake, bits, spacing)
    ensures Required(tree, genesis, last, proofOfStake, limit) == NextBits(bits, spacing, limit)
  {
  }

  /** What GetNextTargetRequired returns is larger exactly when the last block of the kind took more
      than three minutes, and smaller exactly when it took less. */
  lemma {:induction false} RequiredDirection(tree: Tree, genesis: BlockId, last: BlockId, proofOfStake: bool, limit: Limit, bits: nat, spacing: int)
    requires WellFormed(tree, genesis) && last in tree && Retargets(tree, genesis, last, proofOfStake, bits, spacing)
    requires Canonical(bits) && 1440 <= SetCompact(bits) < SetCompact(Compact32(limit))
    ensures var next := SetCompact(Required(tree, genesis, last, proofOfStake, limit));
      (next > SetCompact(bits) <==> spacing > TARGET_SPACING) && (next < SetCompact(bits) <==> spacing < TARGET_SPACING)
  {
    RequiredIs(tree, genesis, last, proofOfStake, limit, bits, spacing);
    BitsDirection(bits, spacing, limit);
  }

  /** Nine minutes or more ask for five quarters of the target, one second or less for 2522 parts in
      2880, within the limit. */
  lemma {:induction false} RequiredEnds(tree: Tree, genesis: BlockId, last: BlockId, proofOfStake: bool, limit: Limit, bits: nat, spacing: int)
    requires WellFormed(tree, genesis) && last in tree && Retargets(tree, genesis, last, proofOfStake, bits, spacing)
    requires SetCompact(bits) >= 0
    ensures var t, next := SetCompact(bits), Required(tree, genesis, last, proofOfStake, limit);
      && (spacing >= 3 * TARGET_SPACING ==> next == Compact32(Min(5 * t / 4, limit)))
      && (spacing <= 1 ==> next == Compact32(Min(2522 * t / 2880, limit)))
  {
    Ends(SetCompact(bits), spacing, limit);
  }

  // ---------------------------------------------------------------- all of a chain's targets

  ghost predicate AllCanonical(tree: Tree) {
    forall b :: b in tree ==> Canonical(tree[b].bits)
  }

  lemma {:induction false} LimitWithin(limit: Limit)
    ensures WithinLimit(Compact32(limit), limit)
  {
    FitsCompact(limit, limit);
    GetCompactCanonical(limit);
    CompactLoss(limit);
  }

  /** The target is the limit or follows from a block's. */
  lemma {:induction false} RequiredForms(tree: Tree, genesis: BlockId, last: BlockId, proofOfStake: bool, limit: Limit)
    returns (b: BlockId, spacing: int)
    requires WellFormed(tree, genesis) && last in tree
    ensures b in tree
    ensures var c := Required(tree, genesis, last, proofOfStake, limit);
      c == Compact32(limit) || c == NextBits(tree[b].bits, spacing, limit)
  {
    b, spacing := LastOfKind(tree, genesis, last, proofOfStake), 0;
    if b != genesis {
      spacing := tree[b].time - tree[LastOfKind(tree, genesis, tree[b].prev.value, proofOfStake)].time;
    }
  }

  /** In an index of canonical targets, what is required next is canonical and within the limit. */
  lemma {:induction false} RequiredCanonical(tree: Tree, genesis: BlockId, last: BlockId, proofOfStake: bool, limit: Limit)
    requires WellFormed(tree, genesis) && last in tree && AllCanonical(tree)
    ensures WithinLimit(Required(tree, genesis, last, proofOfStake, limit), limit)
  {
    LimitWithin(limit);
    var b, spacing := RequiredForms(tree, genesis, last, proofOfStake, limit);
    CanonicalSize(tree[b].bits);
    NextBounded(tree[b].bits, spacing, limit);
  }

  /** Successive block indexes: first the genesis block alone, which carries its limit, then one block
      after another with the target required after its predecessor, as AcceptBlock demands. */
  ghost predicate Growth(trees: seq<Tree>, genesis: BlockId, limits: seq<Limit>) {
    && |trees| == |limits| > 0
    && trees[0].Keys == {genesis} && trees[0][genesis].bits == Compact32(limits[0])
    && forall i :: 0 < i < |trees| ==> Grown(trees[i - 1], trees[i], genesis, limits[i])
  }

  ghost predicate Grown(a: Tree, c: Tree, genesis: BlockId, limit: Limit) {
    && WellFormed(a, genesis)
    && exists b :: b in c && AcceptedAfter(a, c, genesis, limit, b)
  }

  ghost predicate AcceptedAfter(a: Tree, c: Tree, genesis: BlockId, limit: Limit, b: BlockId)
    requires WellFormed(a, genesis) && b in c
  {
    && b !in a && c == a[b := c[b]] && c[b].prev.Some? && c[b].prev.value in a
    && c[b].bits == Required(a, genesis, c[b].prev.value, c[b].proofOfStake, limit)
  }

  lemma {:induction false} GrownCanonical(a: Tree, c: Tree, genesis: BlockId, limit: Limit)
    requires Grown(a, c, genesis, limit) && AllCanonical(a)
    ensures AllCanonical(c)
  {
    var b :| b in c && AcceptedAfter(a, c, genesis, limit, b);
    RequiredCanonical(a, genesis, c[b].prev.value, c[b].proofOfStake, limit);
  }

  /** So every target ever accepted is canonical, and none is negative. */
  lemma {:induction false} TargetsStayCanonical(trees: seq<Tree>, genesis: BlockId, limits: seq<Limit>, i: nat)
    requires Growth(trees, genesis, limits) && i < |trees|
    ensures AllCanonical(trees[i]) && forall b :: b in trees[i] ==> SetCompact(trees[i][b].bits) >= 0
  {
    if i == 0 {
      LimitWithin(limits[0]);
    } else {
      TargetsStayCanonical(trees, genesis, limits, i - 1);
      GrownCanonical(trees[i - 1], trees[i], genesis, limits[i]);
    }
    forall b | b in trees[i] ensures SetCompact(trees[i][b].bits) >= 0 {
      CanonicalSize(trees[i][b].bits);
    }
  }
}
