/**
 What the gap that joint sizing reports is worth (app/portfolio.py, solve_joint_kelly): but for a factor of
 1.0000142 it bounds the expected growth that any other admissible way to stake the same candidates could
 add to the solver's point, and at multiplier 1, but for what the snap costs, to the fractions handed back.
 */
module SizingGap {
  import opened Barrier
  import opened BarrierBound
  import opened BarrierLoop
  import opened BarrierObjective
  import opened JointKelly
  import opened RealSums
  import opened ScenarioLaw
  import opened Scenarios

  /** What the gap in an optimal result is worth, for every other way to stake the same candidates. */
  lemma ReportedGap(cs: seq<Candidate>, bankroll: real, multiplier: real, budget: real, epsilon: real, log: Log,
                    r: KellyResult, iterate: seq<real>, t: real, y: seq<real>)
    requires bankroll > 0.0 && OnPositives(log) && BelowTangents(log)
    requires var p := ProblemOf(Chosen(cs), bankroll, budget, epsilon);
      && WellFormed(p) && Solved(cs, bankroll, multiplier, p, r, iterate, t)
      && |y| == |p.caps| && Admissible(p, y)
    ensures var p := ProblemOf(Chosen(cs), bankroll, budget, epsilon);
      && Solvent(p, iterate) && Solvent(p, y)
      && Growth(p, log, y, |p.probs|) - Growth(p, log, iterate, |p.probs|) <= (1.0 + CENTRING) * r.gap.value
  {
    hide Growth, Solvent, Feasible, Admissible, Centred, ProblemOf, WellFormed, Finished;
    var p := ProblemOf(Chosen(cs), bankroll, budget, epsilon);
    GapHolds(p, log, iterate, y, t);
  }

  // ---- what the snap gives up ------------------------------------------------------------

  lemma SnapStep(r: real, x: real, s: real, top: real) returns (win: real, kept: real)
    requires s == Snap(x) && x >= 0.0 && r <= top && top >= 0.0
    ensures win == r * x && kept == r * s && win - kept <= top * ZERO_FRACTION
  {
    win, kept := r * x, r * s;
    MulMono(top, r, x - s);
    MulMono(ZERO_FRACTION, x - s, top);
    assert r * (x - s) == win - kept;
  }

  /** Dropping the smallest fractions lowers a scenario's wealth by no more than this. */
  lemma {:induction false} SnapWealth(r: seq<real>, x: seq<real>, top: real, k: nat)
    requires k <= |x| && k <= |r| && top >= 0.0
    requires forall i | 0 <= i < k :: x[i] >= 0.0 && r[i] <= top
    ensures Apply(r, x, k) - Apply(r, Snapped(x), k) <= SnapDrop(k, top)
  {
    if k > 0 {
      SnapWealth(r, x, top, k - 1);
      var win, kept := SnapStep(r[k - 1], x[k - 1], Snapped(x)[k - 1], top);
      LastTerm(r, x, k, win);
      LastTerm(r, Snapped(x), k, kept);
      assert SnapDrop(k, top) == SnapDrop(k - 1, top) + top * ZERO_FRACTION;
    }
  }

  /** The most the snap can cost: n small fractions at the largest profit, against the wealth that is safe. */
  function SnapCost(n: nat, top: real, staked: real): real
    requires staked < 1.0
  {
    SnapDrop(n, top) / (1.0 - staked)
  }

  function SnapDrop(n: nat, top: real): real { top * ZERO_FRACTION * n as real }

  lemma SnapShare(log: Log, prob: real, w: real, v: real, drop: real, floor: real, cost: real)
    requires OnPositives(log) && BelowTangents(log) && prob >= 0.0 && w > 0.0 && v >= floor > 0.0
    requires w - v <= drop && drop >= 0.0 && cost == drop / floor
    ensures Times(prob, log(w)) - Times(prob, log(v)) <= Times(prob, cost)
  {
    assert log(w) - log(v) <= (w - v) / v;
    SmallerShare(w - v, drop, v, floor);
    TimesMono(prob, log(w) - log(v), cost);
    TimesLess(prob, log(w), log(v));
  }

  lemma SmallerShare(a: real, b: real, v: real, floor: real)
    requires v >= floor > 0.0 && a <= b && b >= 0.0
    ensures a / v <= b / floor
  {
    var q, r := a / v, b / floor;
    Quotient(a, v, q);
    Quotient(b, floor, r);
    BarrierShare(b, floor, 1.0 / floor);
    MulMono(v, floor, r);
    if q > r { MulStrict(q, r, v); }
  }

  /** Stakes that leave something of the bankroll. */
  ghost predicate Partial(p: Problem, x: seq<real>) {
    |x| == |p.caps| && (forall i | 0 <= i < |x| :: x[i] >= 0.0) && SumTo(x, |x|) < 1.0
  }

  /** Wealth after the snap stays above what was not staked. */
  lemma SnapSafe(p: Problem, x: seq<real>, k: nat)
    requires WellFormed(p) && Covered(p) && Partial(p, x) && k < |p.probs|
    ensures SumTo(Snapped(x), |x|) < 1.0 && Wealth(p, k, Snapped(x)) >= 1.0 - SumTo(Snapped(x), |x|)
  {
    SnappedSum(x, |x|);
    LossBound(Snapped(x), p.profits[k], |x|);
  }

  ghost predicate ProfitsUpTo(p: Problem, top: real) {
    top >= 0.0 && forall k, i | 0 <= k < |p.profits| && 0 <= i < |p.profits[k]| :: p.profits[k][i] <= top
  }

  lemma {:induction false} SnapLoss(p: Problem, log: Log, x: seq<real>, top: real, K: nat)
    requires WellFormed(p) && Covered(p) && Partial(p, x) && ProfitsUpTo(p, top)
    requires OnPositives(log) && BelowTangents(log) && K <= |p.probs|
    requires Solvent(p, x) && Solvent(p, Snapped(x)) && SumTo(Snapped(x), |x|) < 1.0
    ensures Growth(p, log, x, K) - Growth(p, log, Snapped(x), K)
         <= Times(SumTo(p.probs, K), SnapCost(|x|, top, SumTo(Snapped(x), |x|)))
  {
    hide Apply, Times, BelowTangents, Covered, Snap, SnapDrop;
    var s := Snapped(x);
    var cost := SnapCost(|x|, top, SumTo(s, |x|));
    if K == 0 {
      TimesFacts(cost, 0.0, 0.0);
    } else {
      var k := K - 1;
      SnapLoss(p, log, x, top, k);
      SnapWealth(p.profits[k], x, top, |x|);
      SnapSafe(p, x, k);
      CostSign(top, |x|);
      SnapShare(log, p.probs[k], Wealth(p, k, x), Wealth(p, k, s), SnapDrop(|x|, top),
                1.0 - SumTo(s, |x|), cost);
      TimesFacts(SumTo(p.probs, k), p.probs[k], cost);
      hide Wealth;
    }
  }

  lemma CostSign(top: real, n: nat)
    requires top >= 0.0
    ensures SnapDrop(n, top) >= 0.0
  {
    MulMono(top * ZERO_FRACTION, 0.0, n as real);
  }

  lemma {:induction false} MassesAdd(scenarios: seq<Scenario>, probs: seq<real>, k: nat)
    requires k <= |scenarios| == |probs|
    requires forall i | 0 <= i < |probs| :: probs[i] == scenarios[i].probability
    ensures SumTo(probs, k) == WinMass(scenarios[..k], {})
  {
    if k > 0 {
      MassesAdd(scenarios, probs, k - 1);
      assert scenarios[..k][..k - 1] == scenarios[..k - 1];
    }
  }

  lemma ProblemMass(chosen: seq<Candidate>, bankroll: real, budget: real, epsilon: real)
    requires bankroll > 0.0
    ensures var p := ProblemOf(chosen, bankroll, budget, epsilon); SumTo(p.probs, |p.probs|) == 1.0
  {
    hide ScenariosOf, WinMass, CapsOf, JointLaw;
    var p, scenarios := ProblemOf(chosen, bankroll, budget, epsilon), ScenariosOf(chosen);
    MassesAdd(scenarios, p.probs, |scenarios|);
    assert scenarios[..|scenarios|] == scenarios;
    TotalMass(chosen);
  }

  /** At multiplier 1 the fractions handed back keep the reported gap, but for what the snap can cost. */
  lemma ReturnedGap(cs: seq<Candidate>, bankroll: real, budget: real, epsilon: real, log: Log,
                    r: KellyResult, iterate: seq<real>, t: real, y: seq<real>, top: real)
    requires bankroll > 0.0 && budget <= 1.0 && OnPositives(log) && BelowTangents(log)
    requires var p := ProblemOf(Chosen(cs), bankroll, budget, epsilon);
      && WellFormed(p) && Solved(cs, bankroll, 1.0, p, r, iterate, t)
      && |y| == |p.caps| && Admissible(p, y) && ProfitsUpTo(p, top)
    ensures var p := ProblemOf(Chosen(cs), bankroll, budget, epsilon);
      var back := Finished(iterate, 1.0, p.caps, p.budget);
      && |back| == |p.caps| && Solvent(p, back) && Solvent(p, y) && SumTo(back, |back|) < 1.0
      && Growth(p, log, y, |p.probs|) - Growth(p, log, back, |p.probs|)
         <= (1.0 + CENTRING) * r.gap.value + SnapCost(|back|, top, SumTo(back, |back|))
  {
    hide Growth, Solvent, Admissible, Centred, ProblemOf, Finished, Active;
    var p := ProblemOf(Chosen(cs), bankroll, budget, epsilon);
    ReportedGap(cs, bankroll, 1.0, budget, epsilon, log, r, iterate, t, y);
    ProblemWellFormed(Chosen(cs), bankroll, budget, epsilon);
    ProblemMass(Chosen(cs), bankroll, budget, epsilon);
    FullKellyOnlySnaps(iterate, p.caps, budget);
    assert Partial(p, iterate);
    SnapSolvent(p, iterate);
    SnapLoss(p, log, iterate, top, |p.probs|);
    TimesFacts(SnapCost(|iterate|, top, SumTo(Snapped(iterate), |iterate|)), 0.0, 0.0);
  }

  lemma SnapSolvent(p: Problem, x: seq<real>)
    requires WellFormed(p) && Covered(p) && Partial(p, x)
    ensures Solvent(p, Snapped(x)) && SumTo(Snapped(x), |x|) < 1.0
  {
    hide Wealth;
    SnappedSum(x, |x|);
    forall k | 0 <= k < |p.probs| ensures Wealth(p, k, Snapped(x)) > 0.0 { SnapSafe(p, x, k); }
  }

  // ---- fractional Kelly ------------------------------------------------------------------

  function Scaled(x: seq<real>, m: real): (r: seq<real>)
    ensures |r| == |x| && forall i | 0 <= i < |x| :: r[i] == Times(m, x[i])
  {
    seq(|x|, i requires 0 <= i < |x| => Times(m, x[i]))
  }

  lemma {:induction false} ScaledApply(r: seq<real>, x: seq<real>, m: real, k: nat)
    requires k <= |x| && k <= |r|
    ensures Apply(r, Scaled(x, m), k) == Times(m, Apply(r, x, k))
    ensures SumTo(Scaled(x, m), k) == Times(m, SumTo(x, k))
  {
    if k == 0 {
      TimesFacts(m, 0.0, 0.0);
    } else {
      var i := k - 1;
      ScaledApply(r, x, m, i);
      var now, next := ScaledTerm(r[i], x[i], m, Scaled(x, m)[i]);
      LastTerm(r, x, k, now);
      LastTerm(r, Scaled(x, m), k, next);
      TimesMore(m, Apply(r, x, i), now);
      TimesMore(m, SumTo(x, i), x[i]);
      hide Apply, SumTo, Times;
    }
  }

  lemma ScaledTerm(r: real, x: real, m: real, y: real) returns (now: real, next: real)
    requires y == Times(m, x)
    ensures now == r * x && next == r * y == Times(m, now)
  {
    now, next := r * x, r * y;
    assert r * (m * x) == m * (r * x);
  }

  /** A share of a partial stake is a smaller one. */
  lemma ScaledPartial(p: Problem, x: seq<real>, m: real)
    requires Partial(p, x) && 0.0 <= m <= 1.0
    ensures Partial(p, Scaled(x, m)) && 0.0 <= SumTo(Scaled(x, m), |x|) <= SumTo(x, |x|)
  {
    hide Apply, SumTo, Times;
    ScaledApply(x, x, m, |x|);
    SumNonNegative(x, |x|);
    ShareOf(m, SumTo(x, |x|));
    forall i | 0 <= i < |x| ensures Scaled(x, m)[i] >= 0.0 { ShareOf(m, x[i]); }
  }

  lemma ShareOf(m: real, v: real)
    requires 0.0 <= m <= 1.0 && v >= 0.0
    ensures 0.0 <= Times(m, v) <= v
  {
    TimesFacts(m, v, 0.0);
    TimesMono(v, m, 1.0);
    TimesMono(v, 0.0, m);
    TimesFacts(v, 0.0, 0.0);
  }

  /** The logarithm of a mixture of w and 1 is at least the mixture of their logarithms. */
  lemma ConcaveAt(log: Log, w: real, z: real, m: real)
    requires OnPositives(log) && BelowTangents(log) && w > 0.0 && z > 0.0 && 0.0 <= m <= 1.0
    requires z - 1.0 == Times(m, w - 1.0)
    ensures Times(m, log(w) - log(1.0)) <= log(z) - log(1.0)
  {
    var a, d, e := 1.0 / z, w - z, 1.0 - z;
    var up := TangentAt(log, z, w, d, a);
    var down := TangentAt(log, z, 1.0, e, a);
    hide Times, BelowTangents;
    Balance(m, w, z, d, e);
    Mixture(m, d, e, a, up, down, log(w) - log(z), log(1.0) - log(z));
    MixtureSplit(m, log(w), log(z), log(1.0));
  }

  lemma Balance(m: real, w: real, z: real, d: real, e: real)
    requires z - 1.0 == Times(m, w - 1.0) && d == w - z && e == 1.0 - z
    ensures Times(m, d) + Times(1.0 - m, e) == 0.0
  {
    assert m * (w - z) + (1.0 - m) * (1.0 - z) == m * (w - 1.0) - (z - 1.0);
  }

  lemma Mixture(m: real, d: real, e: real, a: real, up: real, down: real, rise: real, fall: real)
    requires 0.0 <= m <= 1.0 && Times(m, d) + Times(1.0 - m, e) == 0.0
    requires up == a * d && down == a * e && rise <= up && fall <= down
    ensures Times(m, rise) + Times(1.0 - m, fall) <= 0.0
  {
    TimesMono(m, rise, up);
    TimesMono(1.0 - m, fall, down);
    assert m * (a * d) + (1.0 - m) * (a * e) == a * (m * d + (1.0 - m) * e);
  }

  lemma MixtureSplit(m: real, a: real, z: real, o: real)
    ensures Times(m, a - z) + Times(1.0 - m, o - z) == Times(m, a - o) - (z - o)
  {
  }

  /** Staking nothing. */
  function Nothing(p: Problem): (x: seq<real>)
    ensures |x| == |p.caps|
  {
    Repeat(0.0, |p.caps|)
  }

  lemma {:induction false} ZeroStake(r: seq<real>, n: nat, k: nat)
    requires k <= n && k <= |r|
    ensures Apply(r, Repeat(0.0, n), k) == 0.0
  {
    if k > 0 { ZeroStake(r, n, k - 1); }
  }

  lemma PartialSolvent(p: Problem, x: seq<real>)
    requires WellFormed(p) && Covered(p) && Partial(p, x)
    ensures Solvent(p, x)
  {
    forall k | 0 <= k < |p.probs| ensures Wealth(p, k, x) > 0.0 {
      LossBound(x, p.profits[k], |x|);
    }
  }

  lemma ScaledWealth(p: Problem, x: seq<real>, m: real, k: nat)
    requires WellFormed(p) && |x| == |p.caps| && k < |p.probs|
    ensures Wealth(p, k, Scaled(x, m)) - 1.0 == Times(m, Wealth(p, k, x) - 1.0) && Wealth(p, k, Nothing(p)) == 1.0
  {
    hide Apply, Times;
    ScaledApply(p.profits[k], x, m, |x|);
    ZeroStake(p.profits[k], |x|, |x|);
  }

  /** A share m of the stakes keeps at least a share m of the growth over staking nothing. */
  lemma {:induction false} ScaledGrowth(p: Problem, log: Log, x: seq<real>, m: real, K: nat)
    requires WellFormed(p) && |x| == |p.caps| && OnPositives(log) && BelowTangents(log) && K <= |p.probs|
    requires Solvent(p, x) && Solvent(p, Scaled(x, m)) && Solvent(p, Nothing(p)) && 0.0 <= m <= 1.0
    ensures Times(m, Growth(p, log, x, K) - Growth(p, log, Nothing(p), K))
         <= Growth(p, log, Scaled(x, m), K) - Growth(p, log, Nothing(p), K)
  {
    hide Times, BelowTangents;
    if K == 0 {
      TimesFacts(m, 0.0, 0.0);
    } else {
      var k, prob := K - 1, p.probs[K - 1];
      var w, z := Wealth(p, k, x), Wealth(p, k, Scaled(x, m));
      ScaledGrowth(p, log, x, m, k);
      ScaledWealth(p, x, m, k);
      ConcaveAt(log, w, z, m);
      ShareStep(m, prob, log(w), log(z), log(1.0));
      GrowthAlgebra(m, Growth(p, log, x, k), Growth(p, log, Nothing(p), k), prob, log(w), log(1.0));
      hide Wealth;
    }
  }

  lemma ShareStep(m: real, prob: real, lw: real, lz: real, lo: real)
    requires prob >= 0.0 && Times(m, lw - lo) <= lz - lo
    ensures Times(m, Times(prob, lw - lo)) <= Times(prob, lz) - Times(prob, lo)
  {
    TimesMono(prob, Times(m, lw - lo), lz - lo);
    assert m * (prob * (lw - lo)) == prob * (m * (lw - lo));
  }

  /** A multiplier in [0,1] scales a strictly feasible point, and then only the snap acts. */
  lemma FractionalSnaps(p: Problem, x: seq<real>, m: real)
    requires WellFormed(p) && |x| == |p.caps| && Feasible(p, x) && Partial(p, x) && 0.0 <= m <= 1.0
    ensures Finished(x, m, p.caps, p.budget) == Snapped(Scaled(x, m))
  {
    hide Wealth, SumTo, Snapped;
    ScaledPartial(p, x, m);
    forall i | 0 <= i < |x| ensures Shrunk(x, m, p.caps)[i] == Scaled(x, m)[i] { ShrinkShare(m, x[i], p.caps[i]); }
    assert Shrunk(x, m, p.caps) == Scaled(x, m);
  }

  lemma ShrinkShare(m: real, v: real, cap: real)
    requires 0.0 <= m <= 1.0 && 0.0 < v < cap
    ensures Shrink(v, m, cap) == Times(m, v)
  {
    ShareOf(m, v);
  }

  /**
   What fractional Kelly keeps: with a multiplier m in [0,1] the fractions handed back have at least the
   share m of the growth over staking nothing that any admissible y has, less the share m of the reported
   gap and what the snap can cost.
   */
  lemma ReturnedShare(cs: seq<Candidate>, bankroll: real, m: real, budget: real, epsilon: real, log: Log,
                      r: KellyResult, iterate: seq<real>, t: real, y: seq<real>, top: real)
    requires bankroll > 0.0 && budget <= 1.0 && OnPositives(log) && BelowTangents(log) && 0.0 <= m <= 1.0
    requires var p := ProblemOf(Chosen(cs), bankroll, budget, epsilon);
      && WellFormed(p) && Solved(cs, bankroll, m, p, r, iterate, t)
      && |y| == |p.caps| && Admissible(p, y) && ProfitsUpTo(p, top)
    ensures var p := ProblemOf(Chosen(cs), bankroll, budget, epsilon);
      var back, K := Finished(iterate, m, p.caps, p.budget), |p.probs|;
      && |back| == |p.caps| && Solvent(p, back) && Solvent(p, y) && Solvent(p, Nothing(p)) && SumTo(back, |back|) < 1.0
      && Growth(p, log, back, K) - Growth(p, log, Nothing(p), K)
         >= Times(m, Growth(p, log, y, K) - Growth(p, log, Nothing(p), K) - (1.0 + CENTRING) * r.gap.value)
            - SnapCost(|back|, top, SumTo(back, |back|))
  {
    hide Growth, Solvent, Admissible, Centred, ProblemOf, Finished, Active, Times, SnapCost, Wealth, ProfitsUpTo;
    hide BelowTangents, Nothing;
    var p := ProblemOf(Chosen(cs), bankroll, budget, epsilon);
    ProblemWellFormed(Chosen(cs), bankroll, budget, epsilon);
    ProblemMass(Chosen(cs), bankroll, budget, epsilon);
    assert Partial(p, iterate) && Covered(p);
    hide WellFormed, Feasible, Covered;
    ShareReturned(p, log, iterate, y, t, m, top, r.gap.value);
  }

  lemma ShareReturned(p: Problem, log: Log, x: seq<real>, y: seq<real>, t: real, m: real, top: real, gap: real)
    requires WellFormed(p) && Covered(p) && Partial(p, x) && ProfitsUpTo(p, top) && 0.0 <= m <= 1.0
    requires |x| == |p.caps| == |y| && Feasible(p, x) && Admissible(p, y) && SumTo(p.probs, |p.probs|) == 1.0
    requires OnPositives(log) && BelowTangents(log)
    requires t > 0.0 && Centred(p, x, t) && gap == Constraints(p) as real / t
    ensures var back, K := Finished(x, m, p.caps, p.budget), |p.probs|;
      && Solvent(p, back) && Solvent(p, y) && Solvent(p, Nothing(p)) && SumTo(back, |back|) < 1.0
      && Growth(p, log, back, K) - Growth(p, log, Nothing(p), K)
         >= Times(m, Growth(p, log, y, K) - Growth(p, log, Nothing(p), K) - (1.0 + CENTRING) * gap)
            - SnapCost(|back|, top, SumTo(back, |back|))
  {
    hide Growth, Solvent, Admissible, Centred, Finished, Times, SnapCost, Wealth, Snapped, Scaled, Feasible, Partial;
    hide WellFormed, Covered, Nothing, BelowTangents, ProfitsUpTo, SumTo;
    var back, K := Finished(x, m, p.caps, p.budget), |p.probs|;
    GapHolds(p, log, x, y, t);
    FractionalKeeps(p, log, x, m, top);
    FractionalSnaps(p, x, m);
    KeepsShare(m, Growth(p, log, y, K), Growth(p, log, x, K), Growth(p, log, Nothing(p), K),
               (1.0 + CENTRING) * gap, SnapCost(|back|, top, SumTo(back, |back|)), Growth(p, log, back, K));
  }

  lemma KeepsShare(m: real, best: real, solved: real, none: real, gap: real, cost: real, back: real)
    requires m >= 0.0 && best - solved <= gap && back - none >= Times(m, solved - none) - cost
    ensures back - none >= Times(m, best - none - gap) - cost
  {
    TimesMono(m, best - none - gap, solved - none);
  }

  lemma FractionalKeeps(p: Problem, log: Log, x: seq<real>, m: real, top: real)
    requires WellFormed(p) && Covered(p) && Partial(p, x) && ProfitsUpTo(p, top) && 0.0 <= m <= 1.0
    requires OnPositives(log) && BelowTangents(log) && SumTo(p.probs, |p.probs|) == 1.0
    ensures var back, K := Snapped(Scaled(x, m)), |p.probs|;
      && Solvent(p, x) && Solvent(p, back) && Solvent(p, Nothing(p)) && SumTo(back, |back|) < 1.0
      && Growth(p, log, back, K) - Growth(p, log, Nothing(p), K)
         >= Times(m, Growth(p, log, x, K) - Growth(p, log, Nothing(p), K)) - SnapCost(|back|, top, SumTo(back, |back|))
  {
    hide Growth, Wealth, Times, BelowTangents, ProfitsUpTo, SnapCost, Snapped, Scaled, Solvent;
    ScaledPartial(p, x, m);
    PartialSolvent(p, x);
    PartialSolvent(p, Scaled(x, m));
    ZeroSum(|p.caps|, |p.caps|);
    PartialSolvent(p, Nothing(p));
    SnapSolvent(p, Scaled(x, m));
    ScaledGrowth(p, log, x, m, |p.probs|);
    SnapLoss(p, log, Scaled(x, m), top, |p.probs|);
    TimesFacts(SnapCost(|x|, top, SumTo(Snapped(Scaled(x, m)), |x|)), 0.0, 0.0);
  }
}
