/**
 The loops of app/portfolio.py, _barrier_solve: assembly of the Newton system, backtracking, and
 the outer path-following loop. Every iterate stays strictly feasible, whatever `log` returns.
 */
module BarrierLoop {
  import opened Barrier
  import opened LinearSolver
  import opened Options
  import opened RealSums

  // ---- the Newton system -----------------------------------------------------------------

  /** Adds scenario k to the gradient and the Hessian, entry by entry. */
  method AddScenario(p: Problem, x: seq<real>, t: real, k: nat, grad: array<real>, hess: array<seq<real>>)
    requires WellFormed(p) && |x| == |p.caps| && Feasible(p, x) && k < |p.probs|
    requires grad[..] == GradVec(p, x, t, k)
    requires hess.Length == |x| && forall i | 0 <= i < |x| :: hess[i] == HessRow(p, x, t, i, k)
    modifies grad, hess
    ensures grad[..] == GradVec(p, x, t, k + 1)
    ensures forall i | 0 <= i < |x| :: hess[i] == HessRow(p, x, t, i, k + 1)
  {
    hide GradTerm, HessCoefficient, Times, Wealth, GradBase, HessBase, HessSlack;
    var n, r, prob := |x|, p.profits[k], p.probs[k];
    var w := Wealth(p, k, x);
    WealthPositive(p, x, k);
    assert grad.Length == n && forall i | 0 <= i < n :: grad[i] == grad[..][i];
    for i := 0 to n
      invariant forall a | 0 <= a < n :: grad[a] == GradAt(p, x, t, a, if a < i then k + 1 else k)
      invariant forall a | 0 <= a < n :: hess[a] == HessRow(p, x, t, a, if a < i then k + 1 else k)
    {
      grad[i] := grad[i] + GradTerm(t, prob, w, p.epsilon, r[i]);
      var coefficient := HessCoefficient(t, prob, w, p.epsilon);
      for j := 0 to n
        invariant |hess[i]| == n
        invariant forall b | 0 <= b < n :: hess[i][b] == HessAt(p, x, t, i, b, if b < j then k + 1 else k)
        invariant forall a | 0 <= a < n && a != i :: hess[a] == old(hess[a]) || a < i
        invariant forall a | 0 <= a < n && a != i :: hess[a] == HessRow(p, x, t, a, if a < i then k + 1 else k)
        invariant forall a | 0 <= a < n :: grad[a] == GradAt(p, x, t, a, if a <= i then k + 1 else k)
      {
        hess[i] := hess[i][j := hess[i][j] + Times(Times(coefficient, r[i]), r[j])];
      }
      assert hess[i] == HessRow(p, x, t, i, k + 1);
    }
    assert grad[..] == GradVec(p, x, t, k + 1);
  }

  /** Adds coordinate i's bounds and the budget to the gradient and the Hessian. */
  method AddBounds(p: Problem, x: seq<real>, t: real, i: nat, grad: array<real>, hess: array<seq<real>>)
    requires WellFormed(p) && |x| == |p.caps| && Feasible(p, x) && i < |x|
    requires grad.Length == hess.Length == |x| && grad[i] == 0.0 && hess[i] == Repeat(0.0, |x|)
    modifies grad, hess
    ensures grad[i] == GradAt(p, x, t, i, 0) && hess[i] == HessRow(p, x, t, i, 0)
    ensures forall a | 0 <= a < |x| && a != i :: grad[a] == old(grad[a]) && hess[a] == old(hess[a])
  {
    hide Feasible, GradBase, HessBase, HessSlack;
    Interior(p, x, i);
    var n, slack := |x|, Slack(p, x);
    grad[i] := grad[i] + GradBase(x[i], p.caps[i], slack);
    hess[i] := hess[i][i := hess[i][i] + HessBase(x[i], p.caps[i])];
    ghost var diagonal := HessBase(x[i], p.caps[i]);
    for j := 0 to n
      invariant |hess[i]| == n && grad[i] == GradAt(p, x, t, i, 0)
      invariant forall b | 0 <= b < n ::
        hess[i][b] == (if i == b then diagonal else 0.0) + (if b < j then HessSlack(slack) else 0.0)
      invariant forall a | 0 <= a < n && a != i :: grad[a] == old(grad[a]) && hess[a] == old(hess[a])
    {
      hess[i] := hess[i][j := hess[i][j] + HessSlack(slack)];
    }
    assert hess[i] == HessRow(p, x, t, i, 0);
  }

  lemma Interior(p: Problem, x: seq<real>, i: nat)
    requires WellFormed(p) && |x| == |p.caps| && Feasible(p, x) && i < |x|
    ensures 0.0 < x[i] < p.caps[i] && Slack(p, x) > 0.0
  {
  }

  method NewtonSystem(p: Problem, x: seq<real>, t: real) returns (g: seq<real>, h: seq<seq<real>>)
    requires WellFormed(p) && |x| == |p.caps| && Feasible(p, x)
    ensures g == Gradient(p, x, t) && h == Hessian(p, x, t)
  {
    hide Feasible, GradAt, HessAt;
    var n := |x|;
    var grad := new real[n](i => 0.0);
    var hess := new seq<real>[n](i => Repeat(0.0, n));
    for i := 0 to n
      invariant forall a | 0 <= a < i :: grad[a] == GradAt(p, x, t, a, 0)
      invariant forall a | 0 <= a < i :: hess[a] == HessRow(p, x, t, a, 0)
      invariant forall a | i <= a < n :: grad[a] == 0.0 && hess[a] == Repeat(0.0, n)
    {
      AddBounds(p, x, t, i, grad, hess);
    }
    assert grad[..] == GradVec(p, x, t, 0);
    for k := 0 to |p.probs|
      invariant grad[..] == GradVec(p, x, t, k)
      invariant forall i | 0 <= i < n :: hess[i] == HessRow(p, x, t, i, k)
    {
      AddScenario(p, x, t, k, grad, hess);
    }
    g, h := grad[..], hess[..];
  }

  // ---- the barrier objective -------------------------------------------------------------

  function ScenarioLogs(p: Problem, log: Log, x: seq<real>, K: nat): real
    requires WellFormed(p) && |x| == |p.caps| && Feasible(p, x) && OnPositives(log) && K <= |p.probs|
  {
    if K == 0 then 0.0
    else
      WealthPositive(p, x, K - 1);
      ScenarioLogs(p, log, x, K - 1) + Times(p.probs[K - 1], log(Wealth(p, K - 1, x)))
  }

  function SolvencyLogs(p: Problem, log: Log, x: seq<real>, K: nat): real
    requires WellFormed(p) && |x| == |p.caps| && Feasible(p, x) && OnPositives(log) && K <= |p.probs|
  {
    if K == 0 then 0.0 else SolvencyLogs(p, log, x, K - 1) + log(Wealth(p, K - 1, x) - p.epsilon)
  }

  function BoxLogs(p: Problem, log: Log, x: seq<real>, k: nat): real
    requires WellFormed(p) && |x| == |p.caps| && Feasible(p, x) && OnPositives(log) && k <= |x|
  {
    if k == 0 then 0.0
    else BoxLogs(p, log, x, k - 1) + (log(x[k - 1]) + log(p.caps[k - 1] - x[k - 1]))
  }

  /** t * (negative expected log growth) + barrier; defined only at strictly feasible points. */
  function Phi(p: Problem, log: Log, x: seq<real>, t: real): real
    requires WellFormed(p) && |x| == |p.caps| && Feasible(p, x) && OnPositives(log)
  {
    -Times(t, ScenarioLogs(p, log, x, |p.probs|)) - BoxLogs(p, log, x, |x|)
    - log(p.budget - SumTo(x, |x|)) - SolvencyLogs(p, log, x, |p.probs|)
  }

  function Moved(x: seq<real>, step: seq<real>, scale: real): (y: seq<real>)
    requires |x| == |step|
    ensures |y| == |x|
  {
    seq(|x|, i requires 0 <= i < |x| => x[i] + scale * step[i])
  }

  /** The step scale after k halvings. */
  function Halved(k: nat): (scale: real)
    ensures scale > 0.0
  {
    if k == 0 then 1.0 else Halved(k - 1) * 0.5
  }

  /** After k halvings the trial is inside and lowers the objective by a quarter of what the slope promises. */
  predicate Accepts(p: Problem, log: Log, x: seq<real>, t: real, step: seq<real>, decrement2: real, k: nat)
    requires WellFormed(p) && |x| == |p.caps| == |step| && Feasible(p, x) && OnPositives(log)
  {
    var trial := Moved(x, step, Halved(k));
    Feasible(p, trial) && Phi(p, log, trial, t) <= Phi(p, log, x, t) + 0.25 * Halved(k) * -decrement2
  }

  /** The first acceptable trial, and none exactly when no halving gives one. */
  method LineSearch(p: Problem, log: Log, x: seq<real>, t: real, step: seq<real>, decrement2: real)
    returns (r: Option<seq<real>>)
    requires WellFormed(p) && |x| == |p.caps| == |step| && Feasible(p, x) && OnPositives(log)
    requires decrement2 >= 0.0
    ensures r.None? ==> forall k | 0 <= k < MAX_BACKTRACK :: !Accepts(p, log, x, t, step, decrement2, k)
    ensures r.Some? ==> exists k | 0 <= k < MAX_BACKTRACK ::
                && Accepts(p, log, x, t, step, decrement2, k) && r.value == Moved(x, step, Halved(k))
                && forall earlier | 0 <= earlier < k :: !Accepts(p, log, x, t, step, decrement2, earlier)
    ensures r.Some? ==> |r.value| == |x| && Feasible(p, r.value)
    ensures r.Some? ==> Phi(p, log, r.value, t) <= Phi(p, log, x, t)
  {
    hide Feasible, Phi;
    var base, slope, scale := Phi(p, log, x, t), -decrement2, 1.0;
    for attempt := 0 to MAX_BACKTRACK
      invariant scale == Halved(attempt)
      invariant forall k | 0 <= k < attempt :: !Accepts(p, log, x, t, step, decrement2, k)
    {
      var trial := Moved(x, step, scale);
      if Feasible(p, trial) && Phi(p, log, trial, t) <= base + 0.25 * scale * slope {
        assert Accepts(p, log, x, t, step, decrement2, attempt);
        MulMono(0.0, slope, 0.25 * scale);
        return Some(trial);
      }
      scale := scale * 0.5;
    }
    r := None;
  }

  // ---- following the path ----------------------------------------------------------------

  /** The Newton decrement at x is within tolerance for the weight t. */
  ghost predicate Centred(p: Problem, x: seq<real>, t: real)
    requires WellFormed(p) && |x| == |p.caps| && Feasible(p, x)
  {
    exists step: seq<real> | |step| == |x| ::
      && Solves(Augment(Hessian(p, x, t), Negated(Gradient(p, x, t))), step)
      && 0.0 <= -Apply(Gradient(p, x, t), step, |x|) <= 2.0 * INNER_TOL
  }

  /** At most MAX_INNER damped Newton steps at weight t. */
  method Centre(p: Problem, log: Log, start: seq<real>, t: real) returns (r: Option<seq<real>>)
    requires WellFormed(p) && |start| == |p.caps| && Feasible(p, start) && OnPositives(log) && t > 0.0
    ensures r.Some? ==> |r.value| == |start| && Feasible(p, r.value) && Centred(p, r.value, t)
    ensures r.Some? ==> Phi(p, log, r.value, t) <= Phi(p, log, start, t)
  {
    hide Feasible, Phi, Apply, Gradient, Hessian;
    var x := start;
    for inner := 0 to MAX_INNER
      invariant |x| == |start| && Feasible(p, x) && Phi(p, log, x, t) <= Phi(p, log, start, t)
    {
      var g, h := NewtonSystem(p, x, t);
      var solved := SolveLinear(h, Negated(g));
      if solved.None? { return None; }
      var step := solved.value;
      NewtonDescends(p, x, t, step);
      var decrement2 := -Apply(g, step, |step|);
      if decrement2 < 0.0 { decrement2 := 0.0; }
      if decrement2 / 2.0 <= INNER_TOL { return Some(x); }
      var next := LineSearch(p, log, x, t, step, decrement2);
      if next.None? { return None; }
      x := next.value;
    }
    r := None;
  }

  function Share(p: Problem): real { p.budget / (|p.caps| + 1) as real }

  function Start(p: Problem): (x: seq<real>)
    ensures |x| == |p.caps|
    ensures forall i | 0 <= i < |x| ::
      x[i] == 0.5 * (if p.caps[i] <= Share(p) then p.caps[i] else Share(p))
  {
    seq(|p.caps|, i requires 0 <= i < |p.caps| =>
      0.5 * (if p.caps[i] <= Share(p) then p.caps[i] else Share(p)))
  }

  /** The barrier weight of outer round k. */
  function Weight(k: nat): (t: real)
    ensures t >= 1.0
  {
    if k == 0 then 1.0 else Weight(k - 1) * MU
  }

  /** Round k is the first whose gap is within tolerance. */
  ghost predicate FirstWithin(p: Problem, k: nat) {
    && Constraints(p) as real / Weight(k) <= GAP_TOL
    && forall j | 0 <= j < k :: Constraints(p) as real / Weight(j) > GAP_TOL
  }

  /** A returned point is strictly feasible, centred for the first weight that suffices, and reports m/t. */
  method BarrierSolve(p: Problem, log: Log) returns (r: Option<(seq<real>, real)>, ghost t: real)
    requires WellFormed(p) && OnPositives(log)
    ensures !Feasible(p, Start(p)) ==> r.None?
    ensures r.Some? ==> |r.value.0| == |p.caps| && Feasible(p, r.value.0)
    ensures r.Some? ==> exists k :: t == Weight(k) && FirstWithin(p, k)
    ensures r.Some? ==> t >= 1.0 && r.value.1 == Constraints(p) as real / t <= GAP_TOL
    ensures r.Some? ==> Centred(p, r.value.0, t)
  {
    hide Feasible, Phi, Centred;
    var x, weight := Start(p), 1.0;
    t := weight;
    if !Feasible(p, x) { return None, t; }
    for outer := 0 to MAX_OUTER
      invariant |x| == |p.caps| && Feasible(p, x) && weight == Weight(outer)
      invariant forall j | 0 <= j < outer :: Constraints(p) as real / Weight(j) > GAP_TOL
    {
      var centred := Centre(p, log, x, weight);
      if centred.None? { return None, weight; }
      x := centred.value;
      var gap := Constraints(p) as real / weight;
      if gap <= GAP_TOL {
        assert FirstWithin(p, outer);
        return Some((x, gap)), weight;
      }
      weight := weight * MU;
    }
    r := None;
  }

  // ---- when the start is feasible --------------------------------------------------------

  lemma {:induction false} SmallStakes(x: seq<real>, k: nat, bound: real)
    requires k <= |x| && forall i | 0 <= i < |x| :: 0.0 <= x[i] <= bound
    ensures 0.0 <= SumTo(x, k) <= bound * k as real
  {
    if k > 0 {
      SmallStakes(x, k - 1, bound);
      assert bound * k as real == bound * (k - 1) as real + bound;
    } else {
      assert bound * 0.0 == 0.0;
    }
  }

  lemma ShareBound(p: Problem, half: real)
    requires p.budget > 0.0 && half == 0.5 * Share(p)
    ensures half > 0.0 && half * |p.caps| as real <= 0.5 * p.budget
  {
    var n, share := |p.caps| as real, Share(p);
    Quotient(p.budget, n + 1.0, share);
    if share <= 0.0 {
      MulMono(0.0, share, n + 1.0);
      assert false;
    }
    assert half * (n + 1.0) == half * n + half;
    assert half * (n + 1.0) == 0.5 * (share * (n + 1.0));
  }

  lemma StartInside(p: Problem)
    requires WellFormed(p) && 0.0 < p.budget <= 1.0 && p.epsilon < 0.5
    requires forall i | 0 <= i < |p.caps| :: p.caps[i] > 0.0
    requires forall k, i | 0 <= k < |p.profits| && 0 <= i < |p.caps| :: p.profits[k][i] >= -1.0
    ensures Feasible(p, Start(p))
  {
    hide SumTo, Wealth;
    var x := Start(p);
    StartBounds(p);
    forall k | 0 <= k < |p.probs| ensures Wealth(p, k, x) > p.epsilon {
      StartWealth(p, x, k);
    }
  }

  lemma StartBounds(p: Problem)
    requires p.budget > 0.0 && forall i | 0 <= i < |p.caps| :: p.caps[i] > 0.0
    ensures var x := Start(p);
      (forall i | 0 <= i < |x| :: 0.0 < x[i] < p.caps[i]) && SumTo(x, |x|) <= 0.5 * p.budget
  {
    hide SumTo, Share, Start;
    var x, half := Start(p), 0.5 * Share(p);
    ShareBound(p, half);
    assert forall i | 0 <= i < |x| :: 0.0 <= x[i] <= half;
    SmallStakes(x, |x|, half);
  }

  lemma StartWealth(p: Problem, x: seq<real>, k: nat)
    requires WellFormed(p) && |x| == |p.caps| && k < |p.probs| && p.epsilon < 0.5
    requires (forall i | 0 <= i < |x| :: x[i] > 0.0) && SumTo(x, |x|) <= 0.5
    requires forall i | 0 <= i < |p.caps| :: p.profits[k][i] >= -1.0
    ensures Wealth(p, k, x) > p.epsilon
  {
    LossBound(x, p.profits[k], |x|);
  }

  /** With every cap positive and no loss above the stake, only an empty budget stops the start. */
  lemma StartFeasible(p: Problem)
    requires WellFormed(p) && p.caps != [] && p.budget <= 1.0 && p.epsilon < 0.5
    requires forall i | 0 <= i < |p.caps| :: p.caps[i] > 0.0
    requires forall k, i | 0 <= k < |p.profits| && 0 <= i < |p.caps| :: p.profits[k][i] >= -1.0
    ensures Feasible(p, Start(p)) <==> p.budget > 0.0
  {
    if p.budget > 0.0 {
      StartInside(p);
    } else {
      EmptyBudget(p);
    }
  }

  lemma EmptyBudget(p: Problem)
    requires WellFormed(p) && p.caps != [] && p.budget <= 0.0
    ensures !Feasible(p, Start(p))
  {
    assert Start(p)[0] <= 0.0;
  }
}
