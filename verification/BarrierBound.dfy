/**
 How much growth the barrier loop can leave on the table (app/portfolio.py, _barrier_solve). The norm in
 which a centred gradient is small is itself bounded by the slacks and the lags that the gap certificate
 leaves over, so no admissible point grows faster by more than m/t, but for a factor of 1.0000142.
 */
module BarrierBound {
  import opened Barrier
  import opened BarrierGap
  import opened BarrierLoop
  import opened RealSums

  /** Squares of non-negative numbers add up to at most the square of their sum. */
  lemma SquaresAdd(a: real, b: real)
    requires a >= 0.0 && b >= 0.0
    ensures Sq(a) + Sq(b) <= Sq(a + b)
  {
    MulMono(a, 0.0, b);
    assert Sq(a + b) == Sq(a) + Sq(b) + 2.0 * (a * b);
  }

  /** A relative move is a slack ratio less one. */
  lemma RelativeMove(next: real, now: real, d: real, inverse: real) returns (move: real)
    requires now > 0.0 && next >= 0.0 && d == next - now && inverse == 1.0 / now
    ensures move == inverse * d && Ratio(next, now) >= 0.0
    ensures Sq(move) <= Sq(1.0 + Ratio(next, now))
  {
    move := inverse * d;
    BarrierShare(next, now, inverse);
    assert inverse * (next - now) == inverse * next - inverse * now;
    var u := Ratio(next, now);
    assert Sq(1.0 + u) - Sq(u - 1.0) == 4.0 * u;
  }

  lemma InverseSquare(v: real, inverse: real) returns (square: real)
    requires v > 0.0 && inverse == 1.0 / v
    ensures v * v > 0.0 && 1.0 / (v * v) == square == inverse * inverse
  {
    square := inverse * inverse;
    ProductPositive(v, v, v * v);
    Quotient(1.0, v, inverse);
    assert (inverse * inverse) * (v * v) == (inverse * v) * (inverse * v) == 1.0;
    Quotient(1.0, v * v, 1.0 / (v * v));
    SameFactor(1.0 / (v * v), inverse * inverse, v * v);
  }

  lemma SquareForm(square: real, inverse: real, d: real, move: real)
    requires square == inverse * inverse && move == inverse * d
    ensures Times(Times(square, d), d) == Sq(move)
  {
    assert (inverse * inverse) * (d * d) == (inverse * d) * (inverse * d);
  }


  // ---- the bounds and the budget ---------------------------------------------------------

  lemma CoordinateNorm(x: real, y: real, cap: real, d: real)
    requires 0.0 < x < cap && 0.0 <= y <= cap && d == y - x
    ensures Ratio(y, x) >= 0.0 && Ratio(cap - y, cap - x) >= 0.0
    ensures Times(Times(HessBase(x, cap), d), d) <= Sq(2.0 + (Ratio(y, x) + Ratio(cap - y, cap - x)))
  {
    var a, b, e := 1.0 / x, 1.0 / (cap - x), -d;
    var low := RelativeMove(y, x, d, a);
    var high := RelativeMove(cap - y, cap - x, e, b);
    var u := InverseSquare(x, a);
    var v := InverseSquare(cap - x, b);
    SquareForm(u, a, d, low);
    SquareForm(v, b, e, high);
    var h := HessBase(x, cap);
    hide Ratio, Sq, Times, HessBase;
    SplitSquares(h, u, v, d, e);
    SquaresAdd(1.0 + Ratio(y, x), 1.0 + Ratio(cap - y, cap - x));
  }

  lemma SplitSquares(h: real, a: real, b: real, d: real, e: real)
    requires h == a + b && e == -d
    ensures Times(Times(h, d), d) == Times(Times(a, d), d) + Times(Times(b, e), e)
  {
  }

  lemma SlackNorm(left: real, slack: real, moved: real)
    requires slack > 0.0 && left >= 0.0 && moved == slack - left
    ensures Ratio(left, slack) >= 0.0
    ensures Times(Times(HessSlack(slack), moved), moved) <= Sq(1.0 + Ratio(left, slack))
  {
    var a, e := 1.0 / slack, -moved;
    var move := RelativeMove(left, slack, e, a);
    var u := InverseSquare(slack, a);
    SquareForm(u, a, e, move);
    SquareFlip(moved, e, u);
  }

  lemma {:induction false} BoxNorm(p: Problem, x: seq<real>, y: seq<real>, diagonal: seq<real>, k: nat)
    requires |x| == |p.caps| == |y| == |diagonal| && k <= |x|
    requires forall i | 0 <= i < |x| :: 0.0 < x[i] < p.caps[i] && 0.0 <= y[i] <= p.caps[i]
    requires forall i | 0 <= i < |x| :: diagonal[i] == HessBase(x[i], p.caps[i])
    ensures Weighted(diagonal, Minus(y, x), Minus(y, x), k) <= Sq(2.0 * k as real + BoxRatios(p, x, y, k))
  {
    hide HessBase, Times, Ratio, Sq;
    if k == 0 {
      SqSign(0.0);
    } else {
      var i := k - 1;
      BoxNorm(p, x, y, diagonal, i);
      BoxRatiosSign(p, x, y, i);
      CoordinateNorm(x[i], y[i], p.caps[i], Minus(y, x)[i]);
      SquaresAdd(2.0 * i as real + BoxRatios(p, x, y, i),
                 2.0 + (Ratio(y[i], x[i]) + Ratio(p.caps[i] - y[i], p.caps[i] - x[i])));
    }
  }

  /** The constraints before scenario K, and the slack ratios they have at y. */
  function Reach(p: Problem, x: seq<real>, y: seq<real>, K: nat): real
    requires WellFormed(p) && |x| == |p.caps| == |y| && Feasible(p, x) && K <= |p.probs|
  {
    2.0 * |x| as real + 1.0 + K as real + Ratios(p, x, y, K)
  }

  lemma BaseNorm(p: Problem, x: seq<real>, y: seq<real>, t: real)
    requires WellFormed(p) && |x| == |p.caps| == |y| && Feasible(p, x) && Admissible(p, y)
    ensures Form(p, x, t, Minus(y, x), Minus(y, x), 0) <= Sq(Reach(p, x, y, 0))
  {
    hide Apply, Times, HessBase, HessSlack, Weighted, Wealth, Ratio, BoxRatios, Sq, SumTo;
    var n, d, slack, left := |x|, Minus(y, x), Slack(p, x), Slack(p, y);
    var q, moved := HessSlack(slack), SumTo(d, n);
    var diagonal := seq(n, i requires 0 <= i < n => HessBase(x[i], p.caps[i]));
    BaseRows(p, x, t, d, q, diagonal);
    BaseForm(HessTimes(p, x, t, d, 0), d, d, Times(q, moved), diagonal, n);
    BoxNorm(p, x, y, diagonal, n);
    BoxRatiosSign(p, x, y, n);
    ApplyMinus(x, y, x, n);
    SlackNorm(left, slack, moved);
    SquaresAdd(2.0 * n as real + BoxRatios(p, x, y, n), 1.0 + Ratio(left, slack));
  }

  lemma SquareFlip(moved: real, e: real, q: real)
    requires e == -moved
    ensures Times(Times(q, e), e) == Times(Times(q, moved), moved)
  {
  }

  // ---- the scenarios ---------------------------------------------------------------------

  /** The slack ratio of a solvency constraint is at least the ratio of the wealths, unless that falls. */
  lemma RatioFromSlack(w: real, v: real, epsilon: real, r: real, u: real)
    requires w > epsilon >= 0.0 && v >= epsilon && v > 0.0
    requires r == Ratio(v, w) && u == Ratio(v - epsilon, w - epsilon) >= 0.0
    ensures r <= 1.0 + u
  {
    Quotient(v, w, r);
    Quotient(v - epsilon, w - epsilon, u);
    if r > 1.0 + u { RatioFalls(w, v, epsilon, r, u); }
  }

  lemma RatioFalls(w: real, v: real, epsilon: real, r: real, u: real)
    requires w > epsilon >= 0.0 && r * w == v && u * (w - epsilon) == v - epsilon && u >= 0.0
    ensures r <= 1.0 + u
  {
    if r > 1.0 + u {
      MulStrict(r, 1.0 + u, w);
      Excess(w, epsilon, u);
    }
  }

  lemma Excess(w: real, epsilon: real, u: real)
    requires w > epsilon >= 0.0 && u >= 0.0
    ensures (1.0 + u) * w >= u * (w - epsilon) + epsilon
  {
    MulMono(u, 0.0, epsilon);
    assert (1.0 + u) * w == w + u * (w - epsilon) + u * epsilon;
  }

  /** No coordinate grows by more than all the ratios of the bounds together. */
  lemma {:induction false} CoordinateGrows(p: Problem, x: seq<real>, y: seq<real>, i: nat, k: nat)
    requires |x| == |p.caps| == |y| && i < k <= |x|
    requires forall j | 0 <= j < |x| :: 0.0 < x[j] < p.caps[j] && 0.0 <= y[j] <= p.caps[j]
    ensures Ratio(y[i], x[i]) <= BoxRatios(p, x, y, k)
  {
    hide Ratio;
    BoxRatiosSign(p, x, y, k - 1);
    var j := k - 1;
    BarrierShare(y[j], x[j], 1.0 / x[j]);
    BarrierShare(p.caps[j] - y[j], p.caps[j] - x[j], 1.0 / (p.caps[j] - x[j]));
    if i < j { CoordinateGrows(p, x, y, i, j); }
  }

  /** Stakes that grow by a factor of at most f, at losses inside the stake, pay back at most f times as much. */
  lemma {:induction false} PayBack(r: seq<real>, x: seq<real>, y: seq<real>, f: real, k: nat)
    requires k <= |x| && k <= |y| && k <= |r|
    requires forall i | 0 <= i < k :: r[i] >= -1.0 && y[i] <= Times(f, x[i])
    ensures Apply(r, y, k) + SumTo(y, k) <= Times(f, Apply(r, x, k) + SumTo(x, k))
  {
    hide Times;
    if k == 0 {
      TimesFacts(f, 0.0, 0.0);
    } else {
      var i := k - 1;
      PayBack(r, x, y, f, i);
      var now, later := PayBackStep(f, r[i], x[i], y[i]);
      LastTerm(r, x, k, now);
      LastTerm(r, y, k, later);
      TimesMore(f, Apply(r, x, i) + SumTo(x, i), now + x[i]);
      hide Apply, SumTo;
    }
  }

  lemma PayBackStep(f: real, r: real, x: real, y: real) returns (now: real, later: real)
    requires r >= -1.0 && y <= Times(f, x)
    ensures now == r * x && later == r * y && later + y <= Times(f, now + x)
  {
    now, later := r * x, r * y;
    MulMono(f * x, y, 1.0 + r);
    assert later + y == y * (1.0 + r);
    assert f * (now + x) == (f * x) * (1.0 + r);
  }

  /** Under covered losses wealth grows by no more than what the bounds and the budget leave. */
  lemma RatioFromStakes(p: Problem, x: seq<real>, y: seq<real>, k: nat)
    requires WellFormed(p) && Covered(p) && |x| == |p.caps| == |y| && Feasible(p, x) && Admissible(p, y)
    requires k < |p.probs| && Wealth(p, k, x) > 0.0
    ensures Ratio(Wealth(p, k, y), Wealth(p, k, x)) <= 1.0 + Ratios(p, x, y, 0)
  {
    hide SumTo, Apply, Times, BoxRatios, Ratio;
    var n, f := |x|, 1.0 + Ratios(p, x, y, 0);
    RatiosSign(p, x, y, 0);
    BoxRatiosSign(p, x, y, n);
    var slack, left := Slack(p, x), Slack(p, y);
    BarrierShare(left, slack, 1.0 / slack);
    forall i | 0 <= i < n ensures y[i] <= Times(f, x[i]) {
      CoordinateGrows(p, x, y, i, n);
      Grown(y[i], x[i], f);
    }
    PayBack(p.profits[k], x, y, f, n);
    Grown(left, slack, f);
    RestGrows(p.budget, slack, left, f);
    TimesMore(f, 1.0 - SumTo(x, n), Apply(p.profits[k], x, n) + SumTo(x, n));
    RatioBelow(Wealth(p, k, y), Wealth(p, k, x), f);
  }

  lemma Grown(next: real, now: real, f: real)
    requires now > 0.0 && Ratio(next, now) <= f
    ensures next <= Times(f, now)
  {
    Quotient(next, now, Ratio(next, now));
    MulMono(f, Ratio(next, now), now);
  }

  lemma RatioBelow(next: real, now: real, f: real)
    requires now > 0.0 && next <= Times(f, now)
    ensures Ratio(next, now) <= f
  {
    var r := Ratio(next, now);
    Quotient(next, now, r);
    if r > f { MulStrict(r, f, now); }
  }

  /** What is not staked grows by no more than the factor either. */
  lemma RestGrows(budget: real, slack: real, left: real, f: real)
    requires budget <= 1.0 && f >= 1.0 && left <= Times(f, slack)
    ensures 1.0 - (budget - left) <= Times(f, 1.0 - (budget - slack))
  {
    MulMono(f, 1.0, 1.0 - budget);
    assert f * (1.0 - (budget - slack)) == f * (1.0 - budget) + f * slack;
  }

  /** Either reason that keeps wealth positive bounds its growth by the slack ratios so far. */
  lemma WealthRatio(p: Problem, x: seq<real>, y: seq<real>, k: nat)
    requires WellFormed(p) && |x| == |p.caps| == |y| && Feasible(p, x) && Admissible(p, y) && k < |p.probs|
    requires Wealth(p, k, x) > 0.0 && Wealth(p, k, x) > p.epsilon
    ensures Ratio(Wealth(p, k, y), Wealth(p, k, x)) <= 1.0 + Ratios(p, x, y, k + 1)
  {
    hide Wealth, Feasible, Admissible, Ratio, Covered;
    var v, w := Wealth(p, k, y), Wealth(p, k, x);
    RatiosSign(p, x, y, k);
    WealthMoved(p, x, y, k);
    BarrierShare(v - p.epsilon, w - p.epsilon, 1.0 / (w - p.epsilon));
    if p.epsilon >= 0.0 {
      RatioFromSlack(w, v, p.epsilon, Ratio(v, w), Ratio(v - p.epsilon, w - p.epsilon));
    } else {
      RatioFromStakes(p, x, y, k);
      RatiosGrow(p, x, y, k + 1);
    }
  }

  lemma {:induction false} RatiosGrow(p: Problem, x: seq<real>, y: seq<real>, K: nat)
    requires WellFormed(p) && |x| == |p.caps| == |y| && Feasible(p, x) && Admissible(p, y) && K <= |p.probs|
    ensures Ratios(p, x, y, 0) <= Ratios(p, x, y, K)
  {
    hide Wealth, Ratio;
    if K > 0 {
      RatiosGrow(p, x, y, K - 1);
      var v, w := Wealth(p, K - 1, y) - p.epsilon, Wealth(p, K - 1, x) - p.epsilon;
      BarrierShare(v, w, 1.0 / w);
    }
  }

  /** A scenario's term of the Hessian, split into the growth's share and the solvency constraint's. */
  lemma CoefficientSplit(t: real, prob: real, w: real, e: real, square: real, r: real, share: real, c: real)
    requires w > 0.0 && r == Ratio(e + w, w) && share * (w * w) == prob && c == t * share + square
    ensures Times(Times(c, e), e) == Times(t, Times(prob, Sq(r - 1.0))) + Times(Times(square, e), e)
  {
    Quotient(e + w, w, r);
    var f := r - 1.0;
    assert e == f * w;
    assert share * (e * e) == (share * (w * w)) * (f * f);
    assert Times(Times(c, e), e) == t * (share * (e * e)) + (square * e) * e;
  }

  /** The growth's share is the lag, up to a bound s on the ratio of the wealths. */
  lemma LagShare(t: real, prob: real, w: real, v: real, r: real, s: real)
    requires w > 0.0 && v > 0.0 && r == Ratio(v, w) && 0.0 <= r <= 1.0 + s && t >= 0.0 && prob >= 0.0
    ensures var lag := Times(t, Times(prob, Lag(w, v)));
            lag >= 0.0 && Times(t, Times(prob, Sq(r - 1.0))) <= 2.0 * (2.0 + s) * lag
  {
    var l := Lag(w, v);
    Quotient(Sq(r - 1.0), 2.0 * (r + 1.0), l);
    MulMono(prob, 0.0, l);
    MulMono(t, 0.0, Times(prob, l));
    var lag := Times(t, Times(prob, l));
    LagScale(t, prob, l, r + 1.0);
    MulMono(2.0 * (2.0 + s), 2.0 * (r + 1.0), lag);
  }

  lemma LagScale(t: real, prob: real, l: real, s: real)
    ensures Times(t, Times(prob, l * (2.0 * s))) == 2.0 * s * Times(t, Times(prob, l))
  {
    assert t * (prob * (l * (2.0 * s))) == 2.0 * s * (t * (prob * l));
  }

  /** One scenario adds to the squared norm no more than its slack ratio and its lag allow. */
  lemma ScenarioNorm(t: real, prob: real, w: real, v: real, epsilon: real, e: real, s: real)
    requires w > epsilon && w > 0.0 && v >= epsilon && v > 0.0 && t >= 0.0 && prob >= 0.0 && e == v - w
    requires Ratio(v, w) <= 1.0 + s
    ensures var u, lag := Ratio(v - epsilon, w - epsilon), Times(t, Times(prob, Lag(w, v)));
      && u >= 0.0 && lag >= 0.0
      && Times(Times(HessCoefficient(t, prob, w, epsilon), e), e) <= Sq(1.0 + u) + 2.0 * (2.0 + s) * lag
  {
    var b := 1.0 / (w - epsilon);
    var square := b * b;
    var r := Ratio(v, w);
    BarrierShare(v, w, 1.0 / w);
    var move := RelativeMove(v - epsilon, w - epsilon, e, b);
    SquareForm(square, b, e, move);
    ProductPositive(w, w, w * w);
    assert e + w == v;
    var share := prob / (w * w);
    Quotient(prob, w * w, share);
    CoefficientSplit(t, prob, w, e, square, r, share, HessCoefficient(t, prob, w, epsilon));
    LagShare(t, prob, w, v, r, s);
  }

  lemma NormStep(before: real, added: real, reach: real, u: real, s: real, lag: real)
    requires reach >= 0.0 && u >= 0.0 && lag >= 0.0 && 1.0 + s <= reach + u
    requires before <= Sq(reach) && added <= Sq(1.0 + u) + 2.0 * (2.0 + s) * lag
    ensures before + added <= Sq(reach + (1.0 + u) + lag)
  {
    var a := 1.0 + u;
    MulMono(reach, 0.0, a);
    MulMono(reach + a, 2.0 + s, lag);
    SqSign(lag);
    assert Sq(reach + a + lag) == Sq(reach) + Sq(a) + Sq(lag) + 2.0 * (reach * a) + 2.0 * ((reach + a) * lag);
  }

  /** The norm of the way to y grows no faster than what the certificate leaves over. */
  lemma {:induction false} NormBound(p: Problem, x: seq<real>, y: seq<real>, t: real, K: nat)
    requires WellFormed(p) && |x| == |p.caps| == |y| && Feasible(p, x) && Admissible(p, y) && K <= |p.probs|
    requires Solvent(p, x) && Solvent(p, y) && t >= 0.0
    ensures Form(p, x, t, Minus(y, x), Minus(y, x), K) <= Sq(Reach(p, x, y, K) + Lags(p, x, y, t, K))
  {
    hide Form, Apply, Times, HessCoefficient, Wealth, Ratio, Sq, BoxRatios, Feasible, Admissible, Lag;
    if K == 0 {
      BaseNorm(p, x, y, t);
    } else {
      var k, d := K - 1, Minus(y, x);
      NormBound(p, x, y, t, k);
      RatiosSign(p, x, y, k);
      LagsSign(p, x, y, t, k);
      WealthMoved(p, x, y, k);
      var w, v, prob := Wealth(p, k, x), Wealth(p, k, y), p.probs[k];
      FormStep(p, x, t, d, d, k);
      WealthRatio(p, x, y, k);
      var s := Ratios(p, x, y, K);
      ScenarioNorm(t, prob, w, v, p.epsilon, Apply(p.profits[k], d, |x|), s);
      NormStep(Form(p, x, t, d, d, k),
               Times(Times(HessCoefficient(t, prob, w, p.epsilon), Apply(p.profits[k], d, |x|)),
                     Apply(p.profits[k], d, |x|)),
               Reach(p, x, y, k) + Lags(p, x, y, t, k), Ratio(v - p.epsilon, w - p.epsilon), s,
               Times(t, Times(prob, Lag(w, v))));
    }
  }

  // ---- the gap ---------------------------------------------------------------------------

  /** At least the root of twice the centring tolerance. */
  const CENTRING: real := 0.0000142

  /** A gradient that is small in the norm is small against what bounds the norm. */
  lemma SmallGradient(g: real, form: real, reach: real)
    requires reach >= 0.0 && Sq(g) <= 2.0 * INNER_TOL * form && form <= Sq(reach)
    ensures -g <= CENTRING * reach
  {
    SqSign(reach);
    MulMono(Sq(reach), form, 2.0 * INNER_TOL);
    MulMono(CENTRING * CENTRING, 2.0 * INNER_TOL, Sq(reach));
    assert Sq(CENTRING * reach) == (CENTRING * CENTRING) * Sq(reach);
    if -g > CENTRING * reach { LargerSquare(g, CENTRING * reach); }
  }

  lemma LargerSquare(g: real, reach: real)
    requires -g > reach >= 0.0
    ensures Sq(g) > Sq(reach)
  {
    ProductPositive(-g - reach, -g + reach, (-g - reach) * (-g + reach));
    assert (-g - reach) * (-g + reach) == Sq(g) - Sq(reach);
  }

  lemma GapOf(t: real, gain: real, m: real, factor: real)
    requires t > 0.0 && t * gain <= factor * m
    ensures gain <= factor * (m / t)
  {
    var gap := m / t;
    Quotient(m, t, gap);
    assert factor * gap * t == factor * (gap * t);
    if gain > factor * gap { MulStrict(gain, factor * gap, t); }
  }

  /**
   The reported gap, made a bound on what is left: where the loop stops, whatever the weight, no
   admissible y has an expected growth that exceeds the centred point's by more than m/t, but for a
   factor that only the centring tolerance decides.
   */
  lemma GapHolds(p: Problem, log: Log, x: seq<real>, y: seq<real>, t: real)
    requires WellFormed(p) && |x| == |p.caps| == |y| && Feasible(p, x) && Admissible(p, y)
    requires OnPositives(log) && BelowTangents(log) && t > 0.0 && Centred(p, x, t)
    ensures Solvent(p, x) && Solvent(p, y)
    ensures Growth(p, log, y, |p.probs|) - Growth(p, log, x, |p.probs|)
         <= (1.0 + CENTRING) * (Constraints(p) as real / t)
  {
    hide Form, Apply, Gradient, Feasible, Admissible, Centred, Growth, Solvent, Sq, Ratios, Lags;
    var d, K := Minus(y, x), |p.probs|;
    GapCertificate(p, log, x, y, t);
    CentredGradient(p, x, t, d);
    NormBound(p, x, y, t, K);
    RatiosSign(p, x, y, K);
    LagsSign(p, x, y, t, K);
    SmallGradient(Apply(Gradient(p, x, t), d, |x|), Form(p, x, t, d, d, K),
                  Reach(p, x, y, K) + Lags(p, x, y, t, K));
    GapOf(t, Growth(p, log, y, K) - Growth(p, log, x, K), Constraints(p) as real, 1.0 + CENTRING);
  }
}
