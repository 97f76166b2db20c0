/**
 The log-barrier interior-point loop (app/portfolio.py, _barrier_solve).

 `log` is a parameter defined on the positive reals only, so the proof also shows that the loop
 never evaluates it outside its domain, and never divides by zero. Centring is approximate; what
 the returned point certifies is `GapCertificate`.
 */
module Barrier {
  import opened LinearSolver
  import opened RealSums

  datatype Problem = Problem(profits: seq<seq<real>>, probs: seq<real>, caps: seq<real>,
                             budget: real, epsilon: real)

  const MU: real := 15.0
  const GAP_TOL: real := 0.00000001
  const INNER_TOL: real := 0.0000000001
  const MAX_OUTER: nat := 80
  const MAX_INNER: nat := 100
  const MAX_BACKTRACK: nat := 60

  type Log = real --> real

  ghost predicate OnPositives(log: Log) { forall v | v > 0.0 :: log.requires(v) }

  /** All the proofs use of the logarithm: it lies below its tangents. */
  ghost predicate BelowTangents(log: Log)
    requires OnPositives(log)
  {
    forall a, b | a > 0.0 && b > 0.0 :: log(a) - log(b) <= (a - b) / b
  }

  /** No scenario loses more than the stake, and no more than everything is staked. */
  ghost predicate Covered(p: Problem) {
    p.budget <= 1.0 && forall k, i | 0 <= k < |p.profits| && 0 <= i < |p.profits[k]| :: p.profits[k][i] >= -1.0
  }

  /** Either reason keeps wealth positive where the loop takes its logarithm. */
  ghost predicate WellFormed(p: Problem) {
    && |p.profits| == |p.probs|
    && (forall k | 0 <= k < |p.profits| :: |p.profits[k]| == |p.caps|)
    && (forall k | 0 <= k < |p.probs| :: p.probs[k] >= 0.0)
    && (p.epsilon >= 0.0 || Covered(p))
  }

  function Wealth(p: Problem, k: nat, x: seq<real>): real
    requires WellFormed(p) && k < |p.probs| && |x| == |p.caps|
  {
    1.0 + Apply(p.profits[k], x, |x|)
  }

  /** Strictly inside the box, the budget and every solvency constraint. */
  predicate Feasible(p: Problem, x: seq<real>)
    requires WellFormed(p) && |x| == |p.caps|
  {
    && (forall i | 0 <= i < |x| :: 0.0 < x[i] < p.caps[i])
    && SumTo(x, |x|) < p.budget
    && (forall k | 0 <= k < |p.probs| :: Wealth(p, k, x) > p.epsilon)
  }

  /** No scenario loses more than the sum staked. */
  lemma {:induction false} LossBound(x: seq<real>, r: seq<real>, k: nat)
    requires k <= |x| && k <= |r|
    requires forall i | 0 <= i < k :: x[i] >= 0.0 && r[i] >= -1.0
    ensures Apply(r, x, k) >= -SumTo(x, k)
  {
    if k > 0 {
      LossBound(x, r, k - 1);
      MulMono(r[k - 1], -1.0, x[k - 1]);
    }
  }

  lemma WealthPositive(p: Problem, x: seq<real>, k: nat)
    requires WellFormed(p) && |x| == |p.caps| && Feasible(p, x) && k < |p.probs|
    ensures Wealth(p, k, x) > p.epsilon && Wealth(p, k, x) > 0.0
  {
    if p.epsilon < 0.0 { LossBound(x, p.profits[k], |x|); }
  }

  /** The closed constraint set, restricted to where the objective is defined. */
  ghost predicate Admissible(p: Problem, y: seq<real>)
    requires WellFormed(p) && |y| == |p.caps|
  {
    && (forall i | 0 <= i < |y| :: 0.0 <= y[i] <= p.caps[i])
    && SumTo(y, |y|) <= p.budget
    && (forall k | 0 <= k < |p.probs| :: Wealth(p, k, y) >= p.epsilon && Wealth(p, k, y) > 0.0)
  }

  /** The number of inequality constraints. */
  function Constraints(p: Problem): nat { 2 * |p.caps| + 1 + |p.probs| }

  // ---- gradient and Hessian --------------------------------------------------------------

  function GradBase(x: real, cap: real, slack: real): real
    requires 0.0 < x < cap && slack > 0.0
  {
    -1.0 / x + 1.0 / (cap - x) + 1.0 / slack
  }

  /** Weight with which a scenario's profits enter the gradient. */
  function Pull(t: real, prob: real, w: real, epsilon: real): real
    requires w > epsilon && w > 0.0
  {
    -t * (prob / w) - 1.0 / (w - epsilon)
  }

  function GradTerm(t: real, prob: real, w: real, epsilon: real, r: real): real
    requires w > epsilon && w > 0.0
  {
    -t * (prob / w) * r - 1.0 / (w - epsilon) * r
  }

  function HessBase(x: real, cap: real): real
    requires 0.0 < x < cap
  {
    ProductPositive(x, x, x * x);
    ProductPositive(cap - x, cap - x, (cap - x) * (cap - x));
    1.0 / (x * x) + 1.0 / ((cap - x) * (cap - x))
  }

  function HessSlack(slack: real): real
    requires slack > 0.0
  {
    ProductPositive(slack, slack, slack * slack);
    1.0 / (slack * slack)
  }

  function HessCoefficient(t: real, prob: real, w: real, epsilon: real): real
    requires w > epsilon && w > 0.0
  {
    t * (prob / (w * w)) + 1.0 / (w - epsilon) * (1.0 / (w - epsilon))
  }

  function Slack(p: Problem, x: seq<real>): real { p.budget - SumTo(x, |x|) }

  /** Entry i of the gradient after the first K scenarios. */
  function GradAt(p: Problem, x: seq<real>, t: real, i: nat, K: nat): real
    requires WellFormed(p) && |x| == |p.caps| && Feasible(p, x) && i < |x| && K <= |p.probs|
  {
    if K == 0 then GradBase(x[i], p.caps[i], Slack(p, x))
    else
      WealthPositive(p, x, K - 1);
      GradAt(p, x, t, i, K - 1)
      + GradTerm(t, p.probs[K - 1], Wealth(p, K - 1, x), p.epsilon, p.profits[K - 1][i])
  }

  function HessAt(p: Problem, x: seq<real>, t: real, i: nat, j: nat, K: nat): real
    requires WellFormed(p) && |x| == |p.caps| && Feasible(p, x)
    requires i < |x| && j < |x| && K <= |p.probs|
  {
    if K == 0 then (if i == j then HessBase(x[i], p.caps[i]) else 0.0) + HessSlack(Slack(p, x))
    else
      WealthPositive(p, x, K - 1);
      HessAt(p, x, t, i, j, K - 1)
      + Times(Times(HessCoefficient(t, p.probs[K - 1], Wealth(p, K - 1, x), p.epsilon),
                    p.profits[K - 1][i]), p.profits[K - 1][j])
  }

  function GradVec(p: Problem, x: seq<real>, t: real, K: nat): (g: seq<real>)
    requires WellFormed(p) && |x| == |p.caps| && Feasible(p, x) && K <= |p.probs|
    ensures |g| == |x| && forall i | 0 <= i < |x| :: g[i] == GradAt(p, x, t, i, K)
  {
    seq(|x|, i requires 0 <= i < |x| => GradAt(p, x, t, i, K))
  }

  function HessRow(p: Problem, x: seq<real>, t: real, i: nat, K: nat): (h: seq<real>)
    requires WellFormed(p) && |x| == |p.caps| && Feasible(p, x) && i < |x| && K <= |p.probs|
    ensures |h| == |x| && forall j | 0 <= j < |x| :: h[j] == HessAt(p, x, t, i, j, K)
  {
    seq(|x|, j requires 0 <= j < |x| => HessAt(p, x, t, i, j, K))
  }

  function Gradient(p: Problem, x: seq<real>, t: real): (g: seq<real>)
    requires WellFormed(p) && |x| == |p.caps| && Feasible(p, x)
    ensures |g| == |x|
  {
    GradVec(p, x, t, |p.probs|)
  }

  function Hessian(p: Problem, x: seq<real>, t: real): (h: seq<seq<real>>)
    requires WellFormed(p) && |x| == |p.caps| && Feasible(p, x)
    ensures |h| == |x| && forall i | 0 <= i < |x| :: |h[i]| == |x|
  {
    seq(|x|, i requires 0 <= i < |x| => HessRow(p, x, t, i, |p.probs|))
  }

  // ---- vector algebra --------------------------------------------------------------------

  lemma {:induction false} ApplyAxpy(u: seq<real>, v: seq<real>, c: real, r: seq<real>, d: seq<real>, k: nat)
    requires k <= |u| && k <= |v| && k <= |r| && k <= |d|
    requires forall i | 0 <= i < k :: u[i] == v[i] + Times(c, r[i])
    ensures Apply(u, d, k) == Apply(v, d, k) + Times(c, Apply(r, d, k))
  {
    if k > 0 {
      ApplyAxpy(u, v, c, r, d, k - 1);
      AxpyAlgebra(Apply(v, d, k - 1), Apply(r, d, k - 1), u[k - 1], v[k - 1], c, r[k - 1], d[k - 1]);
    } else {
      assert Times(c, 0.0) == 0.0;
    }
  }

  lemma AxpyAlgebra(s: real, q: real, u: real, v: real, c: real, r: real, d: real)
    requires u == v + Times(c, r)
    ensures (s + Times(c, q)) + u * d == (s + v * d) + Times(c, q + r * d)
  {
  }

  function Minus(y: seq<real>, x: seq<real>): (d: seq<real>)
    requires |y| == |x|
    ensures |d| == |x| && forall i | 0 <= i < |x| :: d[i] == y[i] - x[i]
  {
    seq(|x|, i requires 0 <= i < |x| => y[i] - x[i])
  }

  lemma {:induction false} ApplyMinus(r: seq<real>, y: seq<real>, x: seq<real>, k: nat)
    requires |y| == |x| && k <= |x| && k <= |r|
    ensures Apply(r, Minus(y, x), k) == Apply(r, y, k) - Apply(r, x, k)
    ensures SumTo(Minus(y, x), k) == SumTo(y, k) - SumTo(x, k)
  {
    if k > 0 {
      ApplyMinus(r, y, x, k - 1);
      Distribute(y[k - 1], -x[k - 1], r[k - 1]);
    }
  }

  // ---- the Newton step is a descent direction --------------------------------------------

  lemma GradTermMeaning(t: real, prob: real, w: real, epsilon: real, r: real)
    requires w > epsilon && w > 0.0
    ensures GradTerm(t, prob, w, epsilon, r) == Times(Pull(t, prob, w, epsilon), r)
  {
    var a, b := -t * (prob / w), 1.0 / (w - epsilon);
    assert (a - b) * r == a * r - b * r;
  }

  /** H.s, row by row, after the first K scenarios. */
  function HessTimes(p: Problem, x: seq<real>, t: real, s: seq<real>, K: nat): (v: seq<real>)
    requires WellFormed(p) && |x| == |p.caps| == |s| && Feasible(p, x) && K <= |p.probs|
    ensures |v| == |x|
    ensures forall i | 0 <= i < |x| :: v[i] == Apply(HessRow(p, x, t, i, K), s, |s|)
  {
    seq(|x|, i requires 0 <= i < |x| => Apply(HessRow(p, x, t, i, K), s, |s|))
  }

  lemma HessTimesStep(p: Problem, x: seq<real>, t: real, s: seq<real>, K: nat, coefficient: real)
    requires WellFormed(p) && |x| == |p.caps| == |s| && Feasible(p, x) && K < |p.probs|
    requires Wealth(p, K, x) > 0.0
    requires coefficient == HessCoefficient(t, p.probs[K], Wealth(p, K, x), p.epsilon)
    ensures var r := p.profits[K]; var rs := Apply(r, s, |s|);
      forall i | 0 <= i < |x| ::
        HessTimes(p, x, t, s, K + 1)[i] == HessTimes(p, x, t, s, K)[i] + Times(Times(coefficient, rs), r[i])
  {
    hide HessCoefficient, Times, Apply, Wealth;
    var r := p.profits[K];
    var rs := Apply(r, s, |s|);
    forall i | 0 <= i < |x|
      ensures HessTimes(p, x, t, s, K + 1)[i] == HessTimes(p, x, t, s, K)[i] + Times(Times(coefficient, rs), r[i])
    {
      var u, v := HessRow(p, x, t, i, K + 1), HessRow(p, x, t, i, K);
      ApplyAxpy(u, v, Times(coefficient, r[i]), r, s, |s|);
      TimesSwap(coefficient, r[i], rs);
    }
  }

  lemma TimesSwap(a: real, b: real, c: real)
    ensures Times(Times(a, b), c) == Times(Times(a, c), b)
  {
  }

  lemma CoefficientSign(t: real, prob: real, w: real, epsilon: real)
    requires w > epsilon && w > 0.0 && t >= 0.0 && prob >= 0.0
    ensures HessCoefficient(t, prob, w, epsilon) >= 0.0
  {
    var square, share, inverse := w * w, prob / (w * w), 1.0 / (w - epsilon);
    ProductPositive(w, w, square);
    assert share >= 0.0;
    assert t * share >= 0.0;
    assert Sq(inverse) == inverse * inverse;
    SqSign(inverse);
  }

  lemma QuadraticTerm(coefficient: real, rs: real, v: real)
    requires coefficient >= 0.0 && v == Times(Times(coefficient, rs), rs)
    ensures v >= 0.0
  {
    SqSign(rs);
    assert v == coefficient * Sq(rs);
  }

  lemma {:induction false} SlackRow(h: seq<real>, s: seq<real>, q: real, diagonal: real, i: nat, k: nat)
    requires |h| == |s| && k <= |s| && i < |s|
    requires forall j | 0 <= j < |h| :: h[j] == (if i == j then diagonal else 0.0) + q
    ensures Apply(h, s, k) == Times(q, SumTo(s, k)) + (if i < k then Times(diagonal, s[i]) else 0.0)
  {
    if k > 0 {
      SlackRow(h, s, q, diagonal, i, k - 1);
      var extra := if i == k - 1 then diagonal else 0.0;
      SlackAlgebra(q, SumTo(s, k - 1), extra, s[k - 1]);
      assert extra == 0.0 ==> Times(extra, s[k - 1]) == 0.0;
    }
  }

  lemma SlackAlgebra(q: real, sum: real, extra: real, v: real)
    ensures Times(q, sum) + (extra + q) * v == Times(q, sum + v) + Times(extra, v)
  {
  }

  lemma {:induction false} BaseQuadratic(v: seq<real>, s: seq<real>, q: real, diagonal: seq<real>, total: real, k: nat)
    requires |v| == |s| == |diagonal| && k <= |s| && q >= 0.0
    requires forall i | 0 <= i < |s| :: diagonal[i] >= 0.0
    requires forall i | 0 <= i < |s| :: v[i] == Times(q, total) + Times(diagonal[i], s[i])
    ensures Apply(v, s, k) >= Times(Times(q, total), SumTo(s, k))
  {
    if k > 0 {
      BaseQuadratic(v, s, q, diagonal, total, k - 1);
      var d := Times(diagonal[k - 1], s[k - 1]);
      QuadraticTerm(diagonal[k - 1], s[k - 1], Times(d, s[k - 1]));
      var term := BaseAlgebra(Times(q, total), SumTo(s, k - 1), v[k - 1], d, s[k - 1]);
      LastTerm(v, s, k, term);
      hide Apply, SumTo, Times;
    }
  }

  lemma BaseAlgebra(c: real, sum: real, v: real, d: real, s: real) returns (term: real)
    requires v == c + d
    ensures term == v * s
    ensures Times(c, sum) + term == Times(c, sum + s) + Times(d, s)
  {
    term := v * s;
  }

  lemma HessBaseSign(x: real, cap: real, slack: real)
    requires 0.0 < x < cap && slack > 0.0
    ensures HessBase(x, cap) >= 0.0 && HessSlack(slack) >= 0.0
  {
    ProductPositive(x, x, x * x);
    ProductPositive(cap - x, cap - x, (cap - x) * (cap - x));
    ProductPositive(slack, slack, slack * slack);
  }

  /** The Hessian is positive semidefinite. */
  lemma {:induction false} HessianSemidefinite(p: Problem, x: seq<real>, t: real, s: seq<real>, K: nat)
    requires WellFormed(p) && |x| == |p.caps| == |s| && Feasible(p, x) && K <= |p.probs| && t >= 0.0
    ensures Apply(HessTimes(p, x, t, s, K), s, |s|) >= 0.0
  {
    hide HessCoefficient, Times, Apply, Wealth, HessBase, HessSlack;
    if K == 0 {
      HessianBase(p, x, t, s);
    } else {
      var r := p.profits[K - 1];
      var rs := Apply(r, s, |s|);
      WealthPositive(p, x, K - 1);
      var c := HessCoefficient(t, p.probs[K - 1], Wealth(p, K - 1, x), p.epsilon);
      HessianSemidefinite(p, x, t, s, K - 1);
      HessTimesStep(p, x, t, s, K - 1, c);
      ApplyAxpy(HessTimes(p, x, t, s, K), HessTimes(p, x, t, s, K - 1), Times(c, rs), r, s, |s|);
      CoefficientSign(t, p.probs[K - 1], Wealth(p, K - 1, x), p.epsilon);
      QuadraticTerm(c, rs, Times(Times(c, rs), rs));
    }
  }

  lemma HessianBase(p: Problem, x: seq<real>, t: real, s: seq<real>)
    requires WellFormed(p) && |x| == |p.caps| == |s| && Feasible(p, x)
    ensures Apply(HessTimes(p, x, t, s, 0), s, |s|) >= 0.0
  {
    hide HessBase, HessSlack, Apply, Times;
    var q, total := HessSlack(Slack(p, x)), SumTo(s, |s|);
    var diagonal := seq(|x|, i requires 0 <= i < |x| => HessBase(x[i], p.caps[i]));
    var v := HessTimes(p, x, t, s, 0);
    SlackSign(p, x);
    forall i | 0 <= i < |x|
      ensures diagonal[i] >= 0.0 && v[i] == Times(q, total) + Times(diagonal[i], s[i])
    {
      HessBaseSign(x[i], p.caps[i], Slack(p, x));
      SlackRow(HessRow(p, x, t, i, 0), s, q, diagonal[i], i, |s|);
    }
    BaseQuadratic(v, s, q, diagonal, total, |s|);
    QuadraticTerm(q, total, Times(Times(q, total), total));
  }

  lemma SlackSign(p: Problem, x: seq<real>)
    requires WellFormed(p) && |x| == |p.caps| && Feasible(p, x)
    ensures HessSlack(Slack(p, x)) >= 0.0
  {
    var slack := Slack(p, x);
    ProductPositive(slack, slack, slack * slack);
  }

  lemma {:induction false} ApplyNegated(v: seq<real>, g: seq<real>, s: seq<real>, k: nat)
    requires |v| == |g| == |s| && k <= |s|
    requires forall i | 0 <= i < |s| :: v[i] == -g[i]
    ensures Apply(v, s, k) == -Apply(g, s, k)
  {
    if k > 0 { ApplyNegated(v, g, s, k - 1); }
  }

  lemma {:induction false} ApplyPrefix(a: seq<real>, b: seq<real>, x: seq<real>, k: nat)
    requires k <= |a| && k <= |b| && k <= |x| && forall i | 0 <= i < k :: a[i] == b[i]
    ensures Apply(a, x, k) == Apply(b, x, k)
  {
    if k > 0 { ApplyPrefix(a, b, x, k - 1); }
  }

  /** A solved Newton system gives a direction along which the barrier objective does not rise. */
  lemma NewtonDescends(p: Problem, x: seq<real>, t: real, step: seq<real>)
    requires WellFormed(p) && |x| == |p.caps| == |step| && Feasible(p, x) && t >= 0.0
    requires Solves(Augment(Hessian(p, x, t), Negated(Gradient(p, x, t))), step)
    ensures Apply(Gradient(p, x, t), step, |step|) <= 0.0
  {
    hide Apply, HessAt, GradAt;
    var g, n := Gradient(p, x, t), |step|;
    var v := HessTimes(p, x, t, step, |p.probs|);
    var rows := Augment(Hessian(p, x, t), Negated(g));
    forall i | 0 <= i < n ensures v[i] == -g[i] {
      assert Satisfies(rows[i], step);
      ApplyPrefix(rows[i], HessRow(p, x, t, i, |p.probs|), step, n);
    }
    HessianSemidefinite(p, x, t, step, |p.probs|);
    ApplyNegated(v, g, step, n);
  }

  // ---- the gap certificate ---------------------------------------------------------------

  ghost predicate Solvent(p: Problem, x: seq<real>)
    requires WellFormed(p) && |x| == |p.caps|
  {
    forall k | 0 <= k < |p.probs| :: Wealth(p, k, x) > 0.0
  }

  /** What the lags of the first K scenarios take off the growth, at weight t. */
  ghost function Lags(p: Problem, x: seq<real>, y: seq<real>, t: real, K: nat): real
    requires WellFormed(p) && |x| == |p.caps| == |y| && K <= |p.probs| && Solvent(p, x) && Solvent(p, y)
  {
    if K == 0 then 0.0
    else Lags(p, x, y, t, K - 1) + Times(t, Times(p.probs[K - 1], Lag(Wealth(p, K - 1, x), Wealth(p, K - 1, y))))
  }

  lemma {:induction false} LagsSign(p: Problem, x: seq<real>, y: seq<real>, t: real, K: nat)
    requires WellFormed(p) && |x| == |p.caps| == |y| && K <= |p.probs| && Solvent(p, x) && Solvent(p, y) && t >= 0.0
    ensures Lags(p, x, y, t, K) >= 0.0
  {
    hide Lag, Wealth;
    if K > 0 {
      LagsSign(p, x, y, t, K - 1);
      var lag := Lag(Wealth(p, K - 1, x), Wealth(p, K - 1, y));
      MulMono(p.probs[K - 1], 0.0, lag);
      MulMono(t, 0.0, Times(p.probs[K - 1], lag));
    }
  }

  /** Expected log growth of the first K scenarios. */
  ghost function Growth(p: Problem, log: Log, x: seq<real>, K: nat): real
    requires WellFormed(p) && |x| == |p.caps| && K <= |p.probs| && OnPositives(log)
    requires Solvent(p, x)
  {
    if K == 0 then 0.0
    else Growth(p, log, x, K - 1) + Times(p.probs[K - 1], log(Wealth(p, K - 1, x)))
  }

  /** How far a constraint's slack reaches at the other point. */
  function Ratio(next: real, now: real): real
    requires now > 0.0
  {
    next / now
  }

  /** The slack ratios of the first k coordinates' bounds, from x to y. */
  function BoxRatios(p: Problem, x: seq<real>, y: seq<real>, k: nat): real
    requires |x| == |p.caps| == |y| && k <= |x| && forall i | 0 <= i < |x| :: 0.0 < x[i] < p.caps[i]
  {
    if k == 0 then 0.0
    else
      BoxRatios(p, x, y, k - 1)
      + (Ratio(y[k - 1], x[k - 1]) + Ratio(p.caps[k - 1] - y[k - 1], p.caps[k - 1] - x[k - 1]))
  }

  /** The slack ratios of every bound, the budget and the first K scenarios. */
  function Ratios(p: Problem, x: seq<real>, y: seq<real>, K: nat): real
    requires WellFormed(p) && |x| == |p.caps| == |y| && Feasible(p, x) && K <= |p.probs|
  {
    if K == 0 then BoxRatios(p, x, y, |x|) + Ratio(Slack(p, y), Slack(p, x))
    else Ratios(p, x, y, K - 1) + Ratio(Wealth(p, K - 1, y) - p.epsilon, Wealth(p, K - 1, x) - p.epsilon)
  }

  lemma {:induction false} BoxRatiosSign(p: Problem, x: seq<real>, y: seq<real>, k: nat)
    requires |x| == |p.caps| == |y| && k <= |x|
    requires forall i | 0 <= i < |x| :: 0.0 < x[i] < p.caps[i] && 0.0 <= y[i] <= p.caps[i]
    ensures BoxRatios(p, x, y, k) >= 0.0
  {
    if k > 0 {
      BoxRatiosSign(p, x, y, k - 1);
      BarrierShare(y[k - 1], x[k - 1], 1.0 / x[k - 1]);
      BarrierShare(p.caps[k - 1] - y[k - 1], p.caps[k - 1] - x[k - 1], 1.0 / (p.caps[k - 1] - x[k - 1]));
    }
  }

  lemma {:induction false} RatiosSign(p: Problem, x: seq<real>, y: seq<real>, K: nat)
    requires WellFormed(p) && |x| == |p.caps| == |y| && Feasible(p, x) && Admissible(p, y) && K <= |p.probs|
    ensures Ratios(p, x, y, K) >= 0.0
  {
    hide SumTo, Wealth;
    if K == 0 {
      BoxRatiosSign(p, x, y, |x|);
      BarrierShare(Slack(p, y), Slack(p, x), 1.0 / Slack(p, x));
    } else {
      RatiosSign(p, x, y, K - 1);
      var v, w := Wealth(p, K - 1, y) - p.epsilon, Wealth(p, K - 1, x) - p.epsilon;
      BarrierShare(v, w, 1.0 / w);
    }
  }

  /** How far the logarithm of v falls short of the tangent at w, at the least. */
  function Lag(w: real, v: real): (lag: real)
    requires w > 0.0 && v > 0.0
    ensures lag >= 0.0
  {
    BarrierShare(v, w, 1.0 / w);
    var r := Ratio(v, w);
    SqSign(r - 1.0);
    Sq(r - 1.0) / (2.0 * (r + 1.0))
  }

  /** Two tangents, one of them half way, lie below the one at w by the lag. */
  lemma MidTangents(log: Log, w: real, v: real)
    requires OnPositives(log) && BelowTangents(log) && w > 0.0 && v > 0.0
    ensures log(v) - log(w) <= (v - w) / w - Lag(w, v)
  {
    var mid := (w + v) / 2.0;
    assert log(v) - log(mid) <= (v - mid) / mid;
    assert log(mid) - log(w) <= (mid - w) / w;
    BarrierShare(v, w, 1.0 / w);
    LagAlgebra(w, v, mid, Ratio(v, w), (v - mid) / mid, (mid - w) / w, (v - w) / w, Lag(w, v));
  }

  lemma LagAlgebra(w: real, v: real, mid: real, r: real, upper: real, lower: real, whole: real, lag: real)
    requires w > 0.0 && v > 0.0 && mid == (w + v) / 2.0 && r == v / w && r >= 0.0
    requires upper == (v - mid) / mid && lower == (mid - w) / w && whole == (v - w) / w
    requires lag == Sq(r - 1.0) / (2.0 * (r + 1.0))
    ensures upper + lower == whole - lag
  {
    Quotient(v, w, r);
    Quotient(v - mid, mid, upper);
    Quotient(mid - w, w, lower);
    Quotient(v - w, w, whole);
    SameFactor(whole, r - 1.0, w);
    SameFactor(lower, (r - 1.0) / 2.0, w);
    var span := (r + 1.0) * w;
    assert span == 2.0 * mid;
    assert upper * span == 2.0 * (upper * mid) == (r - 1.0) * w;
    assert upper * span == (upper * (r + 1.0)) * w;
    SameFactor(upper * (r + 1.0), r - 1.0, w);
    Quotient(Sq(r - 1.0), 2.0 * (r + 1.0), lag);
    var s := r + 1.0;
    assert (upper + lower) * (2.0 * s) == 2.0 * (r - 1.0) + (r - 1.0) * s;
    assert (whole - lag) * (2.0 * s) == 2.0 * (r - 1.0) * s - Sq(r - 1.0);
    SameFactor(upper + lower, whole - lag, 2.0 * s);
  }

  /** One scenario contributes at most one constraint's worth of gap, less its slack ratio and its lag. */
  lemma ScenarioGap(t: real, prob: real, w: real, v: real, epsilon: real, rise: real, lag: real)
    requires w > epsilon && w > 0.0 && v >= epsilon && t >= 0.0 && prob >= 0.0
    requires rise <= (v - w) / w - lag
    ensures Times(t, Times(prob, rise)) + Times(Pull(t, prob, w, epsilon), v - w)
         <= 1.0 - Ratio(v - epsilon, w - epsilon) - Times(t, Times(prob, lag))
  {
    var a, b, d := t * (prob / w), 1.0 / (w - epsilon), v - w;
    GapPull(t * prob, rise + lag, d, w);
    assert t * (prob * rise) + t * (prob * lag) == (t * prob) * (rise + lag);
    assert t * (prob / w) == (t * prob) / w;
    assert Times(Pull(t, prob, w, epsilon), d) == -(a * d) - b * d;
    BarrierShare(v - epsilon, w - epsilon, b);
    assert b * d == b * (v - epsilon) - b * (w - epsilon);
  }

  lemma GapPull(weight: real, rise: real, d: real, w: real)
    requires w > 0.0 && weight >= 0.0 && rise <= d / w
    ensures weight * rise <= weight / w * d
  {
    MulMono(d / w, rise, weight);
    assert d / w * weight == weight / w * d;
  }

  lemma BarrierShare(next: real, now: real, inverse: real)
    requires next >= 0.0 && now > 0.0 && inverse == 1.0 / now
    ensures inverse * now == 1.0 && inverse * next == Ratio(next, now) >= 0.0
  {
    Quotient(1.0, now, inverse);
    var r := Ratio(next, now);
    Quotient(next, now, r);
    assert inverse * (r * now) == r * (inverse * now);
    if inverse <= 0.0 {
      MulMono(0.0, inverse, now);
      assert false;
    }
    MulMono(next, 0.0, inverse);
  }

  /** One coordinate's two bounds contribute two less their slack ratios, plus its share of the budget term. */
  lemma CoordinateGap(x: real, y: real, cap: real, slack: real, g: real, d: real, inverse: real)
    returns (term: real)
    requires 0.0 < x < cap && slack > 0.0 && 0.0 <= y <= cap
    requires g == GradBase(x, cap, slack) && d == y - x && inverse == 1.0 / slack
    ensures term == g * d
    ensures term == 2.0 - (Ratio(y, x) + Ratio(cap - y, cap - x)) + Times(inverse, d)
  {
    term := g * d;
    var a, b := 1.0 / x, 1.0 / (cap - x);
    BarrierShare(y, x, a);
    BarrierShare(cap - y, cap - x, b);
    CoordinateAlgebra(a, b, inverse, x, y, cap);
    assert g == -a + b + inverse;
  }

  lemma CoordinateAlgebra(a: real, b: real, c: real, x: real, y: real, cap: real)
    requires a * x == 1.0 && b * (cap - x) == 1.0
    ensures (-a + b + c) * (y - x) == 2.0 - (a * y + b * (cap - y)) + Times(c, y - x)
  {
    assert (-a + b + c) * (y - x)
        == (a * x - a * y) + (b * (cap - x) - b * (cap - y)) + c * (y - x);
  }

  lemma LastTerm(a: seq<real>, x: seq<real>, k: nat, term: real)
    requires 0 < k <= |a| && k <= |x| && term == a[k - 1] * x[k - 1]
    ensures Apply(a, x, k) == Apply(a, x, k - 1) + term && SumTo(x, k) == SumTo(x, k - 1) + x[k - 1]
  {
  }

  lemma {:induction false} BaseGap(p: Problem, x: seq<real>, y: seq<real>, t: real, inverse: real, k: nat)
    requires WellFormed(p) && |x| == |p.caps| == |y| && Feasible(p, x) && Admissible(p, y) && k <= |x|
    requires inverse == 1.0 / Slack(p, x)
    ensures Apply(GradVec(p, x, t, 0), Minus(y, x), k)
         == 2.0 * k as real - BoxRatios(p, x, y, k) + Times(inverse, SumTo(Minus(y, x), k))
  {
    hide GradBase, Times, Wealth, Ratio;
    if k == 0 {
      TimesFacts(inverse, 0.0, 0.0);
    } else {
      var g, d := GradVec(p, x, t, 0)[k - 1], Minus(y, x)[k - 1];
      BaseGap(p, x, y, t, inverse, k - 1);
      var term := CoordinateGap(x[k - 1], y[k - 1], p.caps[k - 1], Slack(p, x), g, d, inverse);
      LastTerm(GradVec(p, x, t, 0), Minus(y, x), k, term);
      TimesMore(inverse, SumTo(Minus(y, x), k - 1), d);
      hide Apply;
    }
  }

  lemma TimesMore(c: real, a: real, b: real)
    ensures Times(c, a + b) == Times(c, a) + Times(c, b)
  {
  }

  lemma BudgetGap(p: Problem, x: seq<real>, y: seq<real>, t: real)
    requires WellFormed(p) && |x| == |p.caps| == |y| && Feasible(p, x) && Admissible(p, y)
    ensures Apply(GradVec(p, x, t, 0), Minus(y, x), |x|) == 2.0 * |x| as real + 1.0 - Ratios(p, x, y, 0)
  {
    hide GradAt, Wealth, Apply, Times, SumTo, BoxRatios, Ratio;
    var slack, left := Slack(p, x), Slack(p, y);
    BaseGap(p, x, y, t, 1.0 / slack, |x|);
    ApplyMinus(x, y, x, |x|);
    BudgetShare(1.0 / slack, slack, left, SumTo(Minus(y, x), |x|));
  }

  lemma BudgetShare(inverse: real, slack: real, left: real, moved: real)
    requires slack > 0.0 && left >= 0.0 && inverse == 1.0 / slack && moved == slack - left
    ensures Times(inverse, moved) == 1.0 - Ratio(left, slack)
  {
    BarrierShare(left, slack, inverse);
    assert inverse * (slack - left) == inverse * slack - inverse * left;
  }

  lemma WealthMoved(p: Problem, x: seq<real>, y: seq<real>, k: nat)
    requires WellFormed(p) && |x| == |p.caps| == |y| && k < |p.probs|
    requires Feasible(p, x) && Admissible(p, y)
    ensures Apply(p.profits[k], Minus(y, x), |x|) == Wealth(p, k, y) - Wealth(p, k, x)
    ensures Wealth(p, k, x) > p.epsilon && Wealth(p, k, x) > 0.0
    ensures Wealth(p, k, y) >= p.epsilon && Wealth(p, k, y) > 0.0
  {
    WealthPositive(p, x, k);
    ApplyMinus(p.profits[k], y, x, |x|);
  }

  lemma GradVecStep(p: Problem, x: seq<real>, t: real, d: seq<real>, K: nat, pull: real)
    requires WellFormed(p) && |x| == |p.caps| == |d| && Feasible(p, x) && K < |p.probs|
    requires Wealth(p, K, x) > 0.0 && pull == Pull(t, p.probs[K], Wealth(p, K, x), p.epsilon)
    ensures Apply(GradVec(p, x, t, K + 1), d, |x|)
         == Apply(GradVec(p, x, t, K), d, |x|) + Times(pull, Apply(p.profits[K], d, |x|))
  {
    hide Pull, GradTerm, Times, Apply, Wealth;
    var u, v := GradVec(p, x, t, K + 1), GradVec(p, x, t, K);
    forall i | 0 <= i < |x| ensures u[i] == v[i] + Times(pull, p.profits[K][i]) {
      GradTermMeaning(t, p.probs[K], Wealth(p, K, x), p.epsilon, p.profits[K][i]);
    }
    ApplyAxpy(u, v, pull, p.profits[K], d, |x|);
  }

  lemma {:induction false} ScenarioGaps(p: Problem, log: Log, x: seq<real>, y: seq<real>, t: real, K: nat)
    requires WellFormed(p) && |x| == |p.caps| == |y| && Feasible(p, x) && Admissible(p, y)
    requires OnPositives(log) && BelowTangents(log) && t >= 0.0 && K <= |p.probs|
    requires Solvent(p, x) && Solvent(p, y)
    ensures Times(t, Growth(p, log, y, K) - Growth(p, log, x, K))
          + Apply(GradVec(p, x, t, K), Minus(y, x), |x|)
         <= 2.0 * |x| as real + 1.0 + K as real - Ratios(p, x, y, K) - Lags(p, x, y, t, K)
  {
    hide Pull, GradVec, Times, Apply, Wealth, Feasible, Admissible, Solvent, Ratio, BoxRatios, Lag, BelowTangents;
    if K == 0 {
      BudgetGap(p, x, y, t);
      TimesFacts(t, 0.0, 0.0);
    } else {
      var r, prob := p.profits[K - 1], p.probs[K - 1];
      var w, v := Wealth(p, K - 1, x), Wealth(p, K - 1, y);
      ScenarioGaps(p, log, x, y, t, K - 1);
      WealthMoved(p, x, y, K - 1);
      GradVecStep(p, x, t, Minus(y, x), K - 1, Pull(t, prob, w, p.epsilon));
      MidTangents(log, w, v);
      ScenarioGap(t, prob, w, v, p.epsilon, log(v) - log(w), Lag(w, v));
      GrowthAlgebra(t, Growth(p, log, y, K - 1), Growth(p, log, x, K - 1), prob, log(v), log(w));
    }
  }

  lemma GrowthAlgebra(t: real, gy: real, gx: real, prob: real, lv: real, lw: real)
    ensures Times(t, (gy + Times(prob, lv)) - (gx + Times(prob, lw)))
         == Times(t, gy - gx) + Times(t, Times(prob, lv - lw))
  {
  }

  /**
   What a strictly feasible x certifies: no admissible y grows faster than x by more than
   (m - g.(y - x)) / t, with g the barrier gradient at x. At an exact centre g is zero and
   this is the usual m/t. What the slacks keep at y, and the lags, are left over.
   */
  lemma GapCertificate(p: Problem, log: Log, x: seq<real>, y: seq<real>, t: real)
    requires WellFormed(p) && |x| == |p.caps| == |y| && Feasible(p, x) && Admissible(p, y)
    requires OnPositives(log) && BelowTangents(log) && t > 0.0
    ensures Solvent(p, x) && Solvent(p, y)
    ensures t * (Growth(p, log, y, |p.probs|) - Growth(p, log, x, |p.probs|))
         <= Constraints(p) as real - Apply(Gradient(p, x, t), Minus(y, x), |x|)
    ensures t * (Growth(p, log, y, |p.probs|) - Growth(p, log, x, |p.probs|))
         <= Constraints(p) as real - Ratios(p, x, y, |p.probs|) - Lags(p, x, y, t, |p.probs|)
            - Apply(Gradient(p, x, t), Minus(y, x), |x|)
  {
    hide Apply, Times, GradVec, Growth, Ratios, Lags, Wealth;
    forall k | 0 <= k < |p.probs| ensures Wealth(p, k, x) > 0.0 { WealthPositive(p, x, k); }
    RatiosSign(p, x, y, |p.probs|);
    LagsSign(p, x, y, t, |p.probs|);
    ScenarioGaps(p, log, x, y, t, |p.probs|);
    TimesMeaning(t, Growth(p, log, y, |p.probs|) - Growth(p, log, x, |p.probs|));
  }
}
