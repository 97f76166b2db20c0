/**
 Pool-adjacent-violators (app/backtest.py, _pav_blocks).

 `Pav` is the block stack the loop builds; `PavBlocks` is the loop. The stack is proved to be
 the least-squares projection of the outcomes onto the non-decreasing sequences.
 */
module Isotonic {
  import opened RealSums

  type pos = n: nat | n > 0 witness 1

  /** One stack entry: sum of the pooled outcomes and how many there are. */
  datatype Block = Block(total: real, count: pos) {
    function Mean(): real { total / count as real }

    function Merge(newer: Block): Block {
      Block(newer.total + total, newer.count + count)
    }
  }

  /** Pushes a block, pooling it with every trailing block whose mean is not smaller. */
  function Push(blocks: seq<Block>, b: Block): seq<Block>
    decreases |blocks|
  {
    if blocks != [] && blocks[|blocks| - 1].Mean() >= b.Mean()
    then Push(blocks[..|blocks| - 1], blocks[|blocks| - 1].Merge(b))
    else blocks + [b]
  }

  function Pav(y: seq<real>): seq<Block> {
    if y == [] then [] else Push(Pav(y[..|y| - 1]), Block(y[|y| - 1], 1))
  }

  /** The fitted value at every position: each block's mean repeated over the block. */
  function Fit(blocks: seq<Block>): seq<real> {
    if blocks == [] then []
    else
      var b := blocks[|blocks| - 1];
      Fit(blocks[..|blocks| - 1]) + Repeat(b.Mean(), b.count)
  }

  function MeansAndSizes(blocks: seq<Block>): (r: seq<(real, nat)>)
    ensures |r| == |blocks|
  {
    seq(|blocks|, i requires 0 <= i < |blocks| => (blocks[i].Mean(), blocks[i].count as nat))
  }

  ghost predicate Monotone(z: seq<real>) {
    forall i, j | 0 <= i <= j < |z| :: z[i] <= z[j]
  }

  /** How far the first k items of the window exceed k copies of `m`. */
  function Excess(w: seq<real>, m: real, k: nat): real
    requires k <= |w|
  {
    if k == 0 then 0.0 else Excess(w, m, k - 1) + (w[k - 1] - m)
  }

  /** Every prefix of the window averages at least `m`, and the whole window averages `m`. */
  ghost predicate Dominated(w: seq<real>, m: real) {
    && Excess(w, m, |w|) == 0.0
    && forall k | 0 <= k <= |w| :: Excess(w, m, k) >= 0.0
  }

  /** The blocks partition `y` from left to right, conserve its sums, and dominate their means. */
  ghost predicate Covers(blocks: seq<Block>, y: seq<real>)
    decreases |blocks|
  {
    if blocks == [] then y == []
    else
      var b := blocks[|blocks| - 1];
      var cut := |y| - b.count;
      && 0 <= cut
      && Sum(y[cut..]) == b.total
      && Dominated(y[cut..], b.Mean())
      && Covers(blocks[..|blocks| - 1], y[..cut])
  }

  ghost predicate MeansIncrease(blocks: seq<Block>) {
    forall i | 0 <= i < |blocks| - 1 :: blocks[i].Mean() < blocks[i + 1].Mean()
  }

  /** x is the projection of y onto the cone of non-decreasing sequences. */
  ghost predicate IsProjection(y: seq<real>, x: seq<real>) {
    && |x| == |y|
    && Monotone(x)
    && forall z: seq<real> | |z| == |y| && Monotone(z) ::
         SqDist(y, z) >= SqDist(y, x) + SqDist(x, z)
  }

  // ---- merging keeps prefix domination --------------------------------------------------

  lemma WeightedMean(p: real, q: real, r: real, c: real, d: real)
    requires p >= q && c > 0.0 && d > 0.0 && r * (c + d) == p * c + q * d
    ensures p >= r >= q
  {
    if r > p {
      MulStrict(r, p, c);
      MulStrict(r, q, d);
      assert false;
    } else if r < q {
      MulStrict(p, r, c);
      MulStrict(q, r, d);
      assert false;
    }
  }

  lemma {:induction false} ExcessIsSum(w: seq<real>, m: real, k: nat)
    requires k <= |w|
    ensures Excess(w, m, k) == Sum(w[..k]) - m * k as real
  {
    if k > 0 {
      ExcessIsSum(w, m, k - 1);
      assert w[..k][..k - 1] == w[..k - 1];
      assert m * k as real == m * (k - 1) as real + m;
    }
  }

  lemma {:induction false} ExcessConcat(u: seq<real>, w: seq<real>, m: real, k: nat)
    requires k <= |u| + |w|
    ensures k <= |u| ==> Excess(u + w, m, k) == Excess(u, m, k)
    ensures k > |u| ==> Excess(u + w, m, k) == Excess(u, m, |u|) + Excess(w, m, k - |u|)
  {
    if k > 0 { ExcessConcat(u, w, m, k - 1); }
  }

  /** Between positions j and k, a smaller reference mean leaves a larger excess. */
  lemma {:induction false} ExcessGap(w: seq<real>, high: real, low: real, j: nat, k: nat)
    requires j <= k <= |w| && high >= low
    ensures Excess(w, high, k) - Excess(w, high, j) <= Excess(w, low, k) - Excess(w, low, j)
  {
    if j < k { ExcessGap(w, high, low, j, k - 1); }
  }

  lemma MergeDominates(u: seq<real>, w: seq<real>, p: real, q: real, r: real)
    requires Dominated(u, p) && Dominated(w, q) && p >= r >= q
    requires Excess(u + w, r, |u| + |w|) == 0.0
    ensures Dominated(u + w, r)
  {
    forall k | 0 <= k <= |u + w| ensures Excess(u + w, r, k) >= 0.0 {
      ExcessConcat(u, w, r, k);
      ExcessConcat(u, w, r, |u| + |w|);
      if k <= |u| {
        ExcessGap(u, p, r, 0, k);
      } else {
        ExcessGap(w, r, q, k - |u|, |w|);
      }
    }
  }

  lemma MergeBlocks(u: seq<real>, w: seq<real>, a: Block, b: Block)
    requires |u| == a.count && |w| == b.count
    requires Sum(u) == a.total && Sum(w) == b.total
    requires Dominated(u, a.Mean()) && Dominated(w, b.Mean())
    requires a.Mean() >= b.Mean()
    ensures Dominated(u + w, a.Merge(b).Mean())
  {
    MergedMean(a, b);
    SumConcat(u, w);
    ExcessIsSum(u + w, a.Merge(b).Mean(), |u + w|);
    assert (u + w)[..|u + w|] == u + w;
    MergeDominates(u, w, a.Mean(), b.Mean(), a.Merge(b).Mean());
  }

  lemma MergedMean(a: Block, b: Block)
    requires a.Mean() >= b.Mean()
    ensures a.Mean() >= a.Merge(b).Mean() >= b.Mean()
  {
    WeightedMean(a.Mean(), b.Mean(), a.Merge(b).Mean(), a.count as real, b.count as real);
  }

  lemma PoolLast(blocks: seq<Block>, b: Block, y: seq<real>, w: seq<real>, cut: int)
    requires blocks != [] && Covers(blocks, y) && cut == |y| - blocks[|blocks| - 1].count
    requires |w| == b.count && Sum(w) == b.total && Dominated(w, b.Mean())
    requires blocks[|blocks| - 1].Mean() >= b.Mean()
    ensures 0 <= cut && Covers(blocks[..|blocks| - 1], y[..cut])
    ensures var pooled, u := blocks[|blocks| - 1].Merge(b), y[cut..] + w;
      |u| == pooled.count && Sum(u) == pooled.total && Dominated(u, pooled.Mean())
    ensures y[..cut] + (y[cut..] + w) == y + w
  {
    hide Block.Mean, Dominated, Sum;
    var u, last := y[cut..], blocks[|blocks| - 1];
    assert |u| == last.count && Sum(u) == last.total && Dominated(u, last.Mean());
    MergeBlocks(u, w, last, b);
    SumConcat(u, w);
  }

  lemma {:induction false} PushCovers(blocks: seq<Block>, b: Block, y: seq<real>, w: seq<real>)
    requires Covers(blocks, y) && MeansIncrease(blocks)
    requires |w| == b.count && Sum(w) == b.total && Dominated(w, b.Mean())
    ensures Covers(Push(blocks, b), y + w) && MeansIncrease(Push(blocks, b))
    decreases |blocks|
  {
    hide Block.Mean, Covers, Dominated;
    var n := |blocks| - 1;
    if blocks != [] && blocks[n].Mean() >= b.Mean() {
      var cut := |y| - blocks[n].count;
      PoolLast(blocks, b, y, w, cut);
      PushCovers(blocks[..n], blocks[n].Merge(b), y[..cut], y[cut..] + w);
    } else {
      CoversAppend(blocks, b, y, w);
    }
  }

  lemma CoversAppend(blocks: seq<Block>, b: Block, y: seq<real>, w: seq<real>)
    requires Covers(blocks, y)
    requires |w| == b.count && Sum(w) == b.total && Dominated(w, b.Mean())
    ensures Covers(blocks + [b], y + w)
  {
    hide Block.Mean;
    var all := blocks + [b];
    assert all[..|all| - 1] == blocks;
    assert (y + w)[|y|..] == w && (y + w)[..|y|] == y;
  }

  lemma {:induction false} PavCovers(y: seq<real>)
    ensures Covers(Pav(y), y) && MeansIncrease(Pav(y))
  {
    if y != [] {
      var n := |y| - 1;
      PavCovers(y[..n]);
      var w := [y[n]];
      assert Dominated(w, Block(y[n], 1).Mean()) by {
        assert Block(y[n], 1).Mean() == y[n];
        assert Excess(w, y[n], 0) == 0.0 && Excess(w, y[n], 1) == 0.0;
      }
      PushCovers(Pav(y[..n]), Block(y[n], 1), y[..n], w);
      assert y[..n] + w == y;
    }
  }

  // ---- the fit is monotone and is the projection ----------------------------------------

  lemma {:induction false} FitMonotone(blocks: seq<Block>)
    requires MeansIncrease(blocks)
    ensures Monotone(Fit(blocks))
    ensures blocks != [] ==>
      Fit(blocks) != [] && Fit(blocks)[|Fit(blocks)| - 1] == blocks[|blocks| - 1].Mean()
  {
    if blocks != [] {
      var init := blocks[..|blocks| - 1];
      FitMonotone(init);
      if init != [] {
        assert init[|init| - 1].Mean() < blocks[|blocks| - 1].Mean() by {
          assert init[|init| - 1] == blocks[|blocks| - 2];
        }
      }
    }
  }

  lemma {:induction false} FitLength(blocks: seq<Block>, y: seq<real>)
    requires Covers(blocks, y)
    ensures |Fit(blocks)| == |y|
  {
    if blocks != [] {
      FitLength(blocks[..|blocks| - 1], y[..|y| - blocks[|blocks| - 1].count]);
    }
  }

  function Term(y: real, x: real, z: real): real { (y - x) * (x - z) }

  /** Sum of (y - x)(x - z): the cross term of the Pythagorean expansion. */
  function Cross(y: seq<real>, x: seq<real>, z: seq<real>): real
    requires |y| == |x| == |z|
  {
    if y == [] then 0.0
    else
      var n := |y| - 1;
      Cross(y[..n], x[..n], z[..n]) + Term(y[n], x[n], z[n])
  }

  lemma {:induction false} Expand(y: seq<real>, x: seq<real>, z: seq<real>)
    requires |y| == |x| == |z|
    ensures SqDist(y, z) == SqDist(y, x) + SqDist(x, z) + 2.0 * Cross(y, x, z)
  {
    if y != [] {
      var n := |y| - 1;
      Expand(y[..n], x[..n], z[..n]);
      assert y[n] - z[n] == (y[n] - x[n]) + (x[n] - z[n]);
    }
  }

  lemma {:induction false} CrossConcat(y: seq<real>, x: seq<real>, z: seq<real>,
                                       v: seq<real>, u: seq<real>, w: seq<real>)
    requires |y| == |x| == |z| && |v| == |u| == |w|
    ensures Cross(y + v, x + u, z + w) == Cross(y, x, z) + Cross(v, u, w)
  {
    hide Term;
    if v == [] {
      assert y + v == y && x + u == x && z + w == z;
    } else {
      var n := |v| - 1;
      CrossConcat(y, x, z, v[..n], u[..n], w[..n]);
      assert (y + v)[..|y + v| - 1] == y + v[..n];
      assert (x + u)[..|x + u| - 1] == x + u[..n];
      assert (z + w)[..|z + w| - 1] == z + w[..n];
    }
  }

  /** Abel summation inside a block: the prefix excess is only ever paid at a larger z. */
  lemma {:induction false} AbelPrefix(w: seq<real>, m: real, z: seq<real>, k: nat)
    requires |w| == |z| && Monotone(z) && 1 <= k <= |w|
    requires Dominated(w, m)
    ensures Cross(w[..k], Repeat(m, k), z[..k]) >= Excess(w, m, k) * (m - z[k - 1])
    decreases k
  {
    var n := k - 1;
    CrossStep(w, m, z, n);
    if n > 0 { AbelPrefix(w, m, z, n); }
  }

  lemma CrossStep(w: seq<real>, m: real, z: seq<real>, n: nat)
    requires |w| == |z| && n < |w|
    ensures Cross(w[..n + 1], Repeat(m, n + 1), z[..n + 1])
         == Cross(w[..n], Repeat(m, n), z[..n]) + Term(w[n], m, z[n])
  {
    hide Term;
    assert w[..n + 1][..n] == w[..n] && z[..n + 1][..n] == z[..n];
    assert Repeat(m, n + 1)[..n] == Repeat(m, n);
  }

  lemma BlockCross(w: seq<real>, m: real, z: seq<real>)
    requires |w| == |z| > 0 && Monotone(z) && Dominated(w, m)
    ensures Cross(w, Repeat(m, |w|), z) >= 0.0
  {
    AbelPrefix(w, m, z, |w|);
    assert w[..|w|] == w && z[..|w|] == z;
  }

  lemma {:induction false} CrossNonNegative(blocks: seq<Block>, y: seq<real>, z: seq<real>)
    requires Covers(blocks, y) && |z| == |y| && Monotone(z)
    ensures |Fit(blocks)| == |y| && Cross(y, Fit(blocks), z) >= 0.0
  {
    hide Term, Block.Mean;
    FitLength(blocks, y);
    if blocks != [] {
      var n, b := |blocks| - 1, blocks[|blocks| - 1];
      var cut := |y| - b.count;
      FitLength(blocks[..n], y[..cut]);
      CrossNonNegative(blocks[..n], y[..cut], z[..cut]);
      BlockCross(y[cut..], b.Mean(), z[cut..]);
      CrossConcat(y[..cut], Fit(blocks[..n]), z[..cut],
                  y[cut..], Repeat(b.Mean(), b.count), z[cut..]);
      assert y == y[..cut] + y[cut..] && z == z[..cut] + z[cut..];
    }
  }

  /** Main result: the pooled means are the projection of the outcomes. */
  lemma FitIsProjection(y: seq<real>)
    ensures IsProjection(y, Fit(Pav(y)))
  {
    hide Term, Block.Mean;
    var x := Fit(Pav(y));
    PavCovers(y);
    FitMonotone(Pav(y));
    FitLength(Pav(y), y);
    forall z: seq<real> | |z| == |y| && Monotone(z)
      ensures SqDist(y, z) >= SqDist(y, x) + SqDist(x, z)
    {
      CrossNonNegative(Pav(y), y, z);
      Expand(y, x, z);
    }
  }

  /** ... and the only monotone sequence at least as close to the outcomes. */
  lemma ProjectionUnique(y: seq<real>, z: seq<real>)
    requires |z| == |y| && Monotone(z)
    ensures |Fit(Pav(y))| == |y|
    ensures SqDist(y, z) <= SqDist(y, Fit(Pav(y))) <==> z == Fit(Pav(y))
  {
    FitIsProjection(y);
    SqDistZero(Fit(Pav(y)), z);
  }

  // ---- the loop --------------------------------------------------------------------------

  lemma PavEmpty()
    ensures Pav([]) == []
  {
  }

  lemma PavStep(y: seq<real>, i: nat)
    requires i < |y|
    ensures Pav(y[..i + 1]) == Push(Pav(y[..i]), Block(y[i], 1))
  {
    assert y[..i + 1][..i] == y[..i];
  }

  method PavBlocks(outcomes: seq<real>) returns (r: seq<(real, nat)>)
    ensures r == MeansAndSizes(Pav(outcomes))
  {
    hide Block.Mean, Pav;
    PavEmpty();
    var blocks: seq<Block> := [];
    for i := 0 to |outcomes|
      invariant blocks == Pav(outcomes[..i])
    {
      var block := Block(outcomes[i], 1);
      PavStep(outcomes, i);
      while blocks != [] && blocks[|blocks| - 1].Mean() >= block.Mean()
        invariant Push(blocks, block) == Pav(outcomes[..i + 1])
        decreases |blocks|
      {
        var previous := blocks[|blocks| - 1];
        blocks := blocks[..|blocks| - 1];
        block := Block(block.total + previous.total, block.count + previous.count);
      }
      blocks := blocks + [block];
    }
    assert outcomes[..|outcomes|] == outcomes;
    r := MeansAndSizes(blocks);
  }
}
