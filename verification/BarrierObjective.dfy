/**
 The objective of the barrier loop and its gradient (app/portfolio.py, _barrier_solve): what the loops
 assemble is a gradient of what the line search lowers. The objective lies above its tangent planes, so a
 strictly feasible point without a gradient minimises it.
 */
module BarrierObjective {
  import opened Barrier
  import opened BarrierLoop
  import opened RealSums

  /** The tangent at x, as a share of the move. */
  lemma TangentAt(log: Log, x: real, y: real, d: real, a: real) returns (part: real)
    requires OnPositives(log) && BelowTangents(log) && x > 0.0 && y > 0.0 && d == y - x && a == 1.0 / x
    ensures part == a * d && log(y) - log(x) <= part
  {
    part := a * d;
    assert log(y) - log(x) <= (y - x) / x;
    Share(y - x, x, a, part);
  }

  lemma Share(d: real, x: real, a: real, part: real)
    requires x > 0.0 && a == 1.0 / x && part == a * d
    ensures d / x == part
  {
  }

  /** One coordinate: its bounds' logarithms fall short of their tangents at x. */
  lemma CoordinateRise(log: Log, x: real, y: real, cap: real, slack: real, g: real, d: real, inverse: real)
    returns (term: real)
    requires OnPositives(log) && BelowTangents(log) && 0.0 < x < cap && 0.0 < y < cap && slack > 0.0
    requires g == GradBase(x, cap, slack) && d == y - x && inverse == 1.0 / slack
    ensures term == g * d
    ensures term <= Times(inverse, d) - ((log(y) + log(cap - y)) - (log(x) + log(cap - x)))
  {
    term := g * d;
    var a, b, e := 1.0 / x, 1.0 / (cap - x), -d;
    var low := TangentAt(log, x, y, d, a);
    var high := TangentAt(log, cap - x, cap - y, e, b);
    CoordinateSplit(a, b, inverse, d, e, low, high, g, term);
  }

  lemma CoordinateSplit(a: real, b: real, c: real, d: real, e: real, low: real, high: real, g: real, term: real)
    requires low == a * d && high == b * e && e == -d && g == -a + b + c && term == g * d
    ensures term == Times(c, d) - low - high
  {
    assert (-a + b + c) * d == -(a * d) - b * -d + c * d;
  }

  lemma {:induction false} BoxRise(p: Problem, log: Log, x: seq<real>, y: seq<real>, t: real, inverse: real, k: nat)
    requires WellFormed(p) && |x| == |p.caps| == |y| && Feasible(p, x) && Feasible(p, y) && k <= |x|
    requires OnPositives(log) && BelowTangents(log) && inverse == 1.0 / Slack(p, x)
    ensures Apply(GradVec(p, x, t, 0), Minus(y, x), k)
         <= Times(inverse, SumTo(Minus(y, x), k)) - (BoxLogs(p, log, y, k) - BoxLogs(p, log, x, k))
  {
    hide GradBase, Times, Wealth, BelowTangents, Feasible, GradVec;
    if k == 0 {
      TimesFacts(inverse, 0.0, 0.0);
    } else {
      Interior(p, x, k - 1);
      Interior(p, y, k - 1);
      BaseEntry(p, x, t, k - 1);
      var g, d := GradVec(p, x, t, 0)[k - 1], Minus(y, x)[k - 1];
      BoxRise(p, log, x, y, t, inverse, k - 1);
      var term := CoordinateRise(log, x[k - 1], y[k - 1], p.caps[k - 1], Slack(p, x), g, d, inverse);
      LastTerm(GradVec(p, x, t, 0), Minus(y, x), k, term);
      TimesMore(inverse, SumTo(Minus(y, x), k - 1), d);
      hide Apply, SumTo, Minus;
    }
  }

  lemma BaseEntry(p: Problem, x: seq<real>, t: real, i: nat)
    requires WellFormed(p) && |x| == |p.caps| && Feasible(p, x) && i < |x|
    ensures |GradVec(p, x, t, 0)| == |x| && 0.0 < x[i] < p.caps[i] && Slack(p, x) > 0.0
    ensures GradVec(p, x, t, 0)[i] == GradBase(x[i], p.caps[i], Slack(p, x))
  {
    hide GradBase, Wealth, SumTo;
  }

  /** One scenario: growth and solvency fall short of their tangents at x. */
  lemma ScenarioRise(log: Log, t: real, prob: real, w: real, v: real, epsilon: real)
    requires OnPositives(log) && BelowTangents(log) && t >= 0.0 && prob >= 0.0
    requires w > epsilon && w > 0.0 && v > epsilon && v > 0.0
    ensures Times(Pull(t, prob, w, epsilon), v - w)
         <= -Times(t, Times(prob, log(v) - log(w))) - (log(v - epsilon) - log(w - epsilon))
  {
    var a, b, d := 1.0 / w, 1.0 / (w - epsilon), v - w;
    var low := TangentAt(log, w, v, d, a);
    var high := TangentAt(log, w - epsilon, v - epsilon, d, b);
    var share, pull := PullMeaning(t, prob, w, epsilon, a, b);
    hide Pull, Times, BelowTangents;
    PullSplit(prob, a, b, d, t, low, high, share, pull);
    TimesMono(prob, log(v) - log(w), low);
    TimesMono(t, Times(prob, log(v) - log(w)), Times(prob, low));
  }

  lemma PullMeaning(t: real, prob: real, w: real, epsilon: real, a: real, b: real) returns (share: real, pull: real)
    requires w > epsilon && w > 0.0 && a == 1.0 / w && b == 1.0 / (w - epsilon)
    ensures pull == Pull(t, prob, w, epsilon) == -t * share - b && share == prob * a
  {
    share := prob * a;
    pull := Pull(t, prob, w, epsilon);
    assert a * w == 1.0;
    assert prob / w == share;
  }

  lemma TimesMono(c: real, a: real, b: real)
    requires c >= 0.0 && a <= b
    ensures Times(c, a) <= Times(c, b)
  {
    MulMono(b, a, c);
  }

  lemma PullSplit(prob: real, a: real, b: real, d: real, t: real, low: real, high: real, share: real, pull: real)
    requires low == a * d && high == b * d && share == prob * a && pull == -t * share - b
    ensures Times(pull, d) == -Times(t, Times(prob, low)) - high
  {
    assert pull * d == -(t * (share * d)) - b * d;
    assert share * d == prob * (a * d);
  }

  /** How much the objective rises from x to y, counting the first K scenarios. */
  ghost function Rise(p: Problem, log: Log, x: seq<real>, y: seq<real>, t: real, K: nat): real
    requires WellFormed(p) && |x| == |p.caps| == |y| && Feasible(p, x) && Feasible(p, y)
    requires OnPositives(log) && K <= |p.probs|
  {
    -Times(t, ScenarioLogs(p, log, y, K) - ScenarioLogs(p, log, x, K))
    - (BoxLogs(p, log, y, |x|) - BoxLogs(p, log, x, |x|))
    - (log(Slack(p, y)) - log(Slack(p, x)))
    - (SolvencyLogs(p, log, y, K) - SolvencyLogs(p, log, x, K))
  }

  lemma FeasibleAdmissible(p: Problem, y: seq<real>)
    requires WellFormed(p) && |y| == |p.caps| && Feasible(p, y)
    ensures Admissible(p, y)
  {
    hide Wealth, SumTo;
    forall k | 0 <= k < |p.probs| ensures Wealth(p, k, y) > 0.0 { WealthPositive(p, y, k); }
  }

  lemma BaseRise(p: Problem, log: Log, x: seq<real>, y: seq<real>, t: real)
    requires WellFormed(p) && |x| == |p.caps| == |y| && Feasible(p, x) && Feasible(p, y)
    requires OnPositives(log) && BelowTangents(log)
    ensures Apply(GradVec(p, x, t, 0), Minus(y, x), |x|) <= Rise(p, log, x, y, t, 0)
  {
    hide Apply, Times, Wealth, BoxLogs, SumTo, BelowTangents, GradVec;
    var inverse, moved := 1.0 / Slack(p, x), SumTo(Minus(y, x), |x|);
    BoxRise(p, log, x, y, t, inverse, |x|);
    ApplyMinus(x, y, x, |x|);
    SlackRise(log, Slack(p, x), Slack(p, y), inverse, moved);
    TimesFacts(t, 0.0, 0.0);
  }

  lemma SlackRise(log: Log, slack: real, left: real, inverse: real, moved: real)
    requires OnPositives(log) && BelowTangents(log) && slack > 0.0 && left > 0.0
    requires inverse == 1.0 / slack && moved == slack - left
    ensures Times(inverse, moved) <= -(log(left) - log(slack))
  {
    var part := TangentAt(log, slack, left, left - slack, inverse);
    assert inverse * (left - slack) == -(inverse * moved);
  }

  lemma {:induction false} PartialRise(p: Problem, log: Log, x: seq<real>, y: seq<real>, t: real, K: nat)
    requires WellFormed(p) && |x| == |p.caps| == |y| && Feasible(p, x) && Feasible(p, y)
    requires OnPositives(log) && BelowTangents(log) && t >= 0.0 && K <= |p.probs|
    ensures Apply(GradVec(p, x, t, K), Minus(y, x), |x|) <= Rise(p, log, x, y, t, K)
  {
    hide Pull, GradVec, Times, Apply, Wealth, Feasible, BoxLogs, BelowTangents;
    if K == 0 {
      BaseRise(p, log, x, y, t);
    } else {
      var k := K - 1;
      var w, v, prob := Wealth(p, k, x), Wealth(p, k, y), p.probs[k];
      PartialRise(p, log, x, y, t, k);
      FeasibleAdmissible(p, y);
      WealthMoved(p, x, y, k);
      WealthPositive(p, y, k);
      GradVecStep(p, x, t, Minus(y, x), k, Pull(t, prob, w, p.epsilon));
      ScenarioRise(log, t, prob, w, v, p.epsilon);
      GrowthAlgebra(t, ScenarioLogs(p, log, y, k), ScenarioLogs(p, log, x, k), prob, log(v), log(w));
    }
  }

  lemma RiseMeaning(p: Problem, log: Log, x: seq<real>, y: seq<real>, t: real)
    requires WellFormed(p) && |x| == |p.caps| == |y| && Feasible(p, x) && Feasible(p, y) && OnPositives(log)
    ensures Rise(p, log, x, y, t, |p.probs|) == Phi(p, log, y, t) - Phi(p, log, x, t)
  {
    hide Feasible, ScenarioLogs, SolvencyLogs, BoxLogs, SumTo, Times;
    WeightedRise(t, ScenarioLogs(p, log, y, |p.probs|), ScenarioLogs(p, log, x, |p.probs|));
  }

  lemma WeightedRise(t: real, a: real, b: real)
    ensures Times(t, a - b) == Times(t, a) - Times(t, b)
  {
  }

  /**
   The assembled vector is a gradient of the objective: between two strictly feasible points the objective
   rises by at least what the gradient at the first promises and at most what the one at the second does.
   */
  lemma GradientOfPhi(p: Problem, log: Log, x: seq<real>, y: seq<real>, t: real)
    requires WellFormed(p) && |x| == |p.caps| == |y| && Feasible(p, x) && Feasible(p, y)
    requires OnPositives(log) && BelowTangents(log) && t >= 0.0
    ensures Apply(Gradient(p, x, t), Minus(y, x), |x|) <= Phi(p, log, y, t) - Phi(p, log, x, t)
         <= Apply(Gradient(p, y, t), Minus(y, x), |x|)
  {
    hide Feasible, Apply, Phi, Rise, GradVec, BelowTangents, Minus;
    PartialRise(p, log, x, y, t, |p.probs|);
    PartialRise(p, log, y, x, t, |p.probs|);
    RiseMeaning(p, log, x, y, t);
    RiseMeaning(p, log, y, x, t);
    Backwards(Gradient(p, y, t), x, y, |x|);
  }

  lemma {:induction false} Backwards(g: seq<real>, x: seq<real>, y: seq<real>, k: nat)
    requires |x| == |y| && k <= |x| && k <= |g|
    ensures Apply(g, Minus(x, y), k) == -Apply(g, Minus(y, x), k)
  {
    if k > 0 {
      Backwards(g, x, y, k - 1);
      assert g[k - 1] * (x[k - 1] - y[k - 1]) == -(g[k - 1] * (y[k - 1] - x[k - 1]));
    }
  }

  /** A strictly feasible point whose gradient vanishes minimises the objective: it is the centre. */
  lemma ExactCentre(p: Problem, log: Log, x: seq<real>, y: seq<real>, t: real)
    requires WellFormed(p) && |x| == |p.caps| == |y| && Feasible(p, x) && Feasible(p, y)
    requires OnPositives(log) && BelowTangents(log) && t >= 0.0
    requires forall i | 0 <= i < |x| :: Gradient(p, x, t)[i] == 0.0
    ensures Phi(p, log, x, t) <= Phi(p, log, y, t)
  {
    hide Feasible, Phi, BelowTangents, Apply, GradAt;
    GradientOfPhi(p, log, x, y, t);
    ZeroApply(Gradient(p, x, t), Minus(y, x), |x|);
  }

  lemma {:induction false} ZeroApply(g: seq<real>, d: seq<real>, k: nat)
    requires k <= |g| && k <= |d| && forall i | 0 <= i < |g| :: g[i] == 0.0
    ensures Apply(g, d, k) == 0.0
  {
    if k > 0 {
      ZeroApply(g, d, k - 1);
      assert g[k - 1] * d[k - 1] == 0.0;
    }
  }
}
