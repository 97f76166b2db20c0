/**
 What the stopping test of the barrier loop certifies (app/portfolio.py, _barrier_solve): with a Newton
 decrement within tolerance, the growth still to be gained exceeds m/t by no more than the tolerance
 allows in the Hessian's own norm.
 */
module BarrierGap {
  import opened Barrier
  import opened BarrierLoop
  import opened LinearSolver
  import opened RealSums

  // ---- the Hessian as a symmetric bilinear form ------------------------------------------

  /** a . H . b */
  ghost function Form(p: Problem, x: seq<real>, t: real, a: seq<real>, b: seq<real>, K: nat): real
    requires WellFormed(p) && |x| == |p.caps| == |a| == |b| && Feasible(p, x) && K <= |p.probs|
  {
    Apply(HessTimes(p, x, t, a, K), b, |x|)
  }

  function Along(a: seq<real>, b: seq<real>, c: real): (r: seq<real>)
    requires |a| == |b|
    ensures |r| == |a| && forall i | 0 <= i < |a| :: r[i] == a[i] + Times(c, b[i])
  {
    seq(|a|, i requires 0 <= i < |a| => a[i] + Times(c, b[i]))
  }

  lemma {:induction false} ApplySwap(a: seq<real>, b: seq<real>, k: nat)
    requires k <= |a| && k <= |b|
    ensures Apply(a, b, k) == Apply(b, a, k)
  {
    if k > 0 {
      ApplySwap(a, b, k - 1);
      assert a[k - 1] * b[k - 1] == b[k - 1] * a[k - 1];
    }
  }

  /** v . (a + c b) */
  lemma ApplyAlong(v: seq<real>, a: seq<real>, b: seq<real>, c: real, k: nat)
    requires |a| == |b| && k <= |a| && k <= |v|
    ensures Apply(v, Along(a, b, c), k) == Apply(v, a, k) + Times(c, Apply(v, b, k))
  {
    hide Apply, Times;
    ApplySwap(v, Along(a, b, c), k);
    ApplySwap(v, a, k);
    ApplySwap(v, b, k);
    ApplyAxpy(Along(a, b, c), a, c, b, v, k);
  }

  /** The form is linear in its first argument. */
  lemma FormAlong(p: Problem, x: seq<real>, t: real, a: seq<real>, b: seq<real>, c: real, d: seq<real>, K: nat)
    requires WellFormed(p) && |x| == |p.caps| == |a| == |b| == |d| && Feasible(p, x) && K <= |p.probs|
    ensures Form(p, x, t, Along(a, b, c), d, K) == Form(p, x, t, a, d, K) + Times(c, Form(p, x, t, b, d, K))
  {
    hide Apply, Times, Feasible, HessAt;
    var u, v, r := HessTimes(p, x, t, Along(a, b, c), K), HessTimes(p, x, t, a, K), HessTimes(p, x, t, b, K);
    forall i | 0 <= i < |x| ensures u[i] == v[i] + Times(c, r[i]) {
      ApplyAlong(HessRow(p, x, t, i, K), a, b, c, |x|);
    }
    ApplyAxpy(u, v, c, r, d, |x|);
  }

  lemma {:induction false} BaseForm(v: seq<real>, a: seq<real>, b: seq<real>, q: real, diagonal: seq<real>, k: nat)
    requires |v| == |a| == |b| == |diagonal| && k <= |a|
    requires forall i | 0 <= i < |a| :: v[i] == q + Times(diagonal[i], a[i])
    ensures Apply(v, b, k) == Times(q, SumTo(b, k)) + Weighted(diagonal, a, b, k)
  {
    if k > 0 {
      BaseForm(v, a, b, q, diagonal, k - 1);
      BaseStep(q, SumTo(b, k - 1), v[k - 1], Times(diagonal[k - 1], a[k - 1]), b[k - 1]);
    }
  }

  lemma BaseStep(q: real, sum: real, v: real, d: real, b: real)
    requires v == q + d
    ensures Times(q, sum) + v * b == Times(q, sum + b) + Times(d, b)
  {
  }

  function Weighted(diagonal: seq<real>, a: seq<real>, b: seq<real>, k: nat): real
    requires k <= |diagonal| && k <= |a| && k <= |b|
  {
    if k == 0 then 0.0
    else Weighted(diagonal, a, b, k - 1) + Times(Times(diagonal[k - 1], a[k - 1]), b[k - 1])
  }

  lemma {:induction false} WeightedSwap(diagonal: seq<real>, a: seq<real>, b: seq<real>, k: nat)
    requires k <= |diagonal| && k <= |a| && k <= |b|
    ensures Weighted(diagonal, a, b, k) == Weighted(diagonal, b, a, k)
  {
    if k > 0 {
      WeightedSwap(diagonal, a, b, k - 1);
      TimesSwap(diagonal[k - 1], a[k - 1], b[k - 1]);
    }
  }

  lemma BaseSymmetric(p: Problem, x: seq<real>, t: real, a: seq<real>, b: seq<real>)
    requires WellFormed(p) && |x| == |p.caps| == |a| == |b| && Feasible(p, x)
    ensures Form(p, x, t, a, b, 0) == Form(p, x, t, b, a, 0)
  {
    hide Apply, Times, HessBase, HessSlack, Weighted;
    var q, n := HessSlack(Slack(p, x)), |x|;
    var diagonal := seq(n, i requires 0 <= i < n => HessBase(x[i], p.caps[i]));
    BaseRows(p, x, t, a, q, diagonal);
    BaseRows(p, x, t, b, q, diagonal);
    BaseForm(HessTimes(p, x, t, a, 0), a, b, Times(q, SumTo(a, n)), diagonal, n);
    BaseForm(HessTimes(p, x, t, b, 0), b, a, Times(q, SumTo(b, n)), diagonal, n);
    WeightedSwap(diagonal, a, b, n);
    TimesSwap(q, SumTo(a, n), SumTo(b, n));
  }

  lemma BaseRows(p: Problem, x: seq<real>, t: real, a: seq<real>, q: real, diagonal: seq<real>)
    requires WellFormed(p) && |x| == |p.caps| == |a| == |diagonal| && Feasible(p, x)
    requires q == HessSlack(Slack(p, x))
    requires forall i | 0 <= i < |x| :: diagonal[i] == HessBase(x[i], p.caps[i])
    ensures forall i | 0 <= i < |x| ::
              HessTimes(p, x, t, a, 0)[i] == Times(q, SumTo(a, |x|)) + Times(diagonal[i], a[i])
  {
    hide Apply, Times, Feasible, HessBase, HessSlack, SumTo;
    forall i | 0 <= i < |x|
      ensures HessTimes(p, x, t, a, 0)[i] == Times(q, SumTo(a, |x|)) + Times(diagonal[i], a[i])
    {
      SlackRow(HessRow(p, x, t, i, 0), a, q, diagonal[i], i, |x|);
    }
  }

  lemma {:induction false} FormSymmetric(p: Problem, x: seq<real>, t: real, a: seq<real>, b: seq<real>, K: nat)
    requires WellFormed(p) && |x| == |p.caps| == |a| == |b| && Feasible(p, x) && K <= |p.probs|
    ensures Form(p, x, t, a, b, K) == Form(p, x, t, b, a, K)
  {
    if K == 0 {
      BaseSymmetric(p, x, t, a, b);
    } else {
      FormSymmetric(p, x, t, a, b, K - 1);
      FormStep(p, x, t, a, b, K - 1);
      FormStep(p, x, t, b, a, K - 1);
    }
  }

  /** A scenario adds the product of both vectors' outcomes in it, weighted alike from either side. */
  lemma FormStep(p: Problem, x: seq<real>, t: real, a: seq<real>, b: seq<real>, K: nat)
    requires WellFormed(p) && |x| == |p.caps| == |a| == |b| && Feasible(p, x) && K < |p.probs|
    ensures Wealth(p, K, x) > p.epsilon && Wealth(p, K, x) > 0.0
    ensures var c, r := HessCoefficient(t, p.probs[K], Wealth(p, K, x), p.epsilon), p.profits[K];
            Form(p, x, t, a, b, K + 1) ==
            Form(p, x, t, a, b, K) + Times(Times(c, Apply(r, a, |x|)), Apply(r, b, |x|))
    ensures var c, r := HessCoefficient(t, p.probs[K], Wealth(p, K, x), p.epsilon), p.profits[K];
            Form(p, x, t, a, b, K + 1) ==
            Form(p, x, t, a, b, K) + Times(Times(c, Apply(r, b, |x|)), Apply(r, a, |x|))
  {
    hide HessCoefficient, Times, Apply, Wealth, Feasible;
    WealthPositive(p, x, K);
    var r, c := p.profits[K], HessCoefficient(t, p.probs[K], Wealth(p, K, x), p.epsilon);
    HessTimesStep(p, x, t, a, K, c);
    ApplyAxpy(HessTimes(p, x, t, a, K + 1), HessTimes(p, x, t, a, K), Times(c, Apply(r, a, |x|)), r, b, |x|);
    TimesSwap(c, Apply(r, a, |x|), Apply(r, b, |x|));
  }

  // ---- Cauchy-Schwarz --------------------------------------------------------------------

  /** The form of d + c s with itself. */
  lemma FormExpands(p: Problem, x: seq<real>, t: real, d: seq<real>, s: seq<real>, c: real, K: nat)
    requires WellFormed(p) && |x| == |p.caps| == |d| == |s| && Feasible(p, x) && K <= |p.probs| && t >= 0.0
    ensures Form(p, x, t, d, d, K) + 2.0 * Times(c, Form(p, x, t, s, d, K)) + Times(c, Times(c, Form(p, x, t, s, s, K)))
            >= 0.0
  {
    hide Form, Times, Feasible, Along;
    var v := Along(d, s, c);
    FormSign(p, x, t, v, K);
    FormAlong(p, x, t, d, s, c, v, K);
    FormSymmetric(p, x, t, d, v, K);
    FormSymmetric(p, x, t, s, v, K);
    FormAlong(p, x, t, d, s, c, d, K);
    FormAlong(p, x, t, d, s, c, s, K);
    FormSymmetric(p, x, t, d, s, K);
    TimesMore(c, Form(p, x, t, d, s, K), Times(c, Form(p, x, t, s, s, K)));
  }

  lemma FormSign(p: Problem, x: seq<real>, t: real, s: seq<real>, K: nat)
    requires WellFormed(p) && |x| == |p.caps| == |s| && Feasible(p, x) && K <= |p.probs| && t >= 0.0
    ensures Form(p, x, t, s, s, K) >= 0.0
  {
    HessianSemidefinite(p, x, t, s, K);
  }

  /** A quadratic that is never negative has a mixed term bounded by the outer ones. */
  lemma Discriminant(a: real, b: real, c: real)
    requires a >= 0.0 && c >= 0.0
    requires forall k: real :: a + 2.0 * Times(k, b) + Times(k, Times(k, c)) >= 0.0
    ensures Sq(b) <= Times(a, c)
  {
    if c > 0.0 {
      var k := -b / c;
      assert a + 2.0 * Times(k, b) + Times(k, Times(k, c)) >= 0.0;
      Vertex(a, b, c, k);
    } else if b != 0.0 {
      var k := -(a + 1.0) / (2.0 * b);
      assert a + 2.0 * Times(k, b) + Times(k, Times(k, c)) >= 0.0;
      FlatSlope(a, b, c, k);
      assert false;
    } else {
      assert Sq(b) == 0.0 && Times(a, c) == 0.0;
    }
  }

  lemma Vertex(a: real, b: real, c: real, k: real)
    requires c > 0.0 && k == -b / c && a + 2.0 * Times(k, b) + Times(k, Times(k, c)) >= 0.0
    ensures Sq(b) <= Times(a, c)
  {
    Quotient(-b, c, k);
    assert Times(k, Times(k, c)) == k * (k * c) == k * (-b);
    assert a + k * b >= 0.0;
    assert (a + k * b) * c == a * c + (k * c) * b;
    MulMono(a + k * b, 0.0, c);
  }

  lemma FlatSlope(a: real, b: real, c: real, k: real)
    requires c == 0.0 && b != 0.0 && k == -(a + 1.0) / (2.0 * b)
    ensures a + 2.0 * Times(k, b) + Times(k, Times(k, c)) == -1.0
  {
    assert k * (2.0 * b) == -(a + 1.0);
    assert Times(k, c) == 0.0;
  }

  lemma CauchySchwarz(p: Problem, x: seq<real>, t: real, d: seq<real>, s: seq<real>)
    requires WellFormed(p) && |x| == |p.caps| == |d| == |s| && Feasible(p, x) && t >= 0.0
    ensures Sq(Form(p, x, t, s, d, |p.probs|))
         <= Times(Form(p, x, t, d, d, |p.probs|), Form(p, x, t, s, s, |p.probs|))
  {
    hide Form, Times, Feasible, Sq;
    var K := |p.probs|;
    FormSign(p, x, t, d, K);
    FormSign(p, x, t, s, K);
    forall c: real
      ensures Form(p, x, t, d, d, K) + 2.0 * Times(c, Form(p, x, t, s, d, K))
              + Times(c, Times(c, Form(p, x, t, s, s, K))) >= 0.0
    {
      FormExpands(p, x, t, d, s, c, K);
    }
    Discriminant(Form(p, x, t, d, d, K), Form(p, x, t, s, d, K), Form(p, x, t, s, s, K));
  }

  // ---- the certificate of a centred point ------------------------------------------------

  /** A Newton step turns the gradient along any direction into the form with that direction. */
  lemma StepForm(p: Problem, x: seq<real>, t: real, step: seq<real>, d: seq<real>)
    requires WellFormed(p) && |x| == |p.caps| == |step| == |d| && Feasible(p, x)
    requires Solves(Augment(Hessian(p, x, t), Negated(Gradient(p, x, t))), step)
    ensures Form(p, x, t, step, d, |p.probs|) == -Apply(Gradient(p, x, t), d, |x|)
  {
    hide Apply, HessAt, GradAt, Feasible;
    var g, n := Gradient(p, x, t), |x|;
    var v := HessTimes(p, x, t, step, |p.probs|);
    var rows := Augment(Hessian(p, x, t), Negated(g));
    forall i | 0 <= i < n ensures v[i] == -g[i] {
      assert Satisfies(rows[i], step);
      ApplyPrefix(rows[i], HessRow(p, x, t, i, |p.probs|), step, n);
    }
    ApplyNegated(v, g, d, n);
  }

  /** The gradient of a centred point is small along every direction, in the Hessian's norm. */
  lemma CentredGradient(p: Problem, x: seq<real>, t: real, d: seq<real>)
    requires WellFormed(p) && |x| == |p.caps| == |d| && Feasible(p, x) && t >= 0.0 && Centred(p, x, t)
    ensures Form(p, x, t, d, d, |p.probs|) >= 0.0
    ensures Sq(Apply(Gradient(p, x, t), d, |x|)) <= 2.0 * INNER_TOL * Form(p, x, t, d, d, |p.probs|)
  {
    hide Form, Apply, Gradient, Hessian, Feasible, Solves;
    var step :| |step| == |x|
                && Solves(Augment(Hessian(p, x, t), Negated(Gradient(p, x, t))), step)
                && 0.0 <= -Apply(Gradient(p, x, t), step, |x|) <= 2.0 * INNER_TOL;
    var K := |p.probs|;
    StepForm(p, x, t, step, d);
    StepForm(p, x, t, step, step);
    CauchySchwarz(p, x, t, d, step);
    FormSign(p, x, t, d, K);
    SmallProduct(Form(p, x, t, d, d, K), Form(p, x, t, step, step, K), Apply(Gradient(p, x, t), d, |x|));
  }

  lemma SmallProduct(a: real, c: real, g: real)
    requires a >= 0.0 && 0.0 <= c <= 2.0 * INNER_TOL && Sq(-g) <= Times(a, c)
    ensures Sq(g) <= 2.0 * INNER_TOL * a
  {
    MulMono(2.0 * INNER_TOL, c, a);
    assert Sq(-g) == Sq(g) && Times(a, c) == c * a;
  }

  /**
   What the stopping test is worth: t times the growth that any admissible y could add exceeds m by
   at most an amount whose square is within the tolerance, in the Hessian's norm of y - x.
   */
  lemma CentredGap(p: Problem, log: Log, x: seq<real>, y: seq<real>, t: real)
    requires WellFormed(p) && |x| == |p.caps| == |y| && Feasible(p, x) && Admissible(p, y)
    requires OnPositives(log) && BelowTangents(log) && t > 0.0 && Centred(p, x, t)
    ensures Solvent(p, x) && Solvent(p, y)
    ensures Beyond(Times(t, Growth(p, log, y, |p.probs|) - Growth(p, log, x, |p.probs|)), Constraints(p) as real,
                   2.0 * INNER_TOL * Form(p, x, t, Minus(y, x), Minus(y, x), |p.probs|))
  {
    hide Form, Apply, Gradient, Feasible, Admissible, Centred, Growth, Solvent, Sq, Times, Beyond;
    GapCertificate(p, log, x, y, t);
    CentredGradient(p, x, t, Minus(y, x));
    var gain := Growth(p, log, y, |p.probs|) - Growth(p, log, x, |p.probs|);
    TimesMeaning(t, gain);
    ExcessSmall(Times(t, gain), Constraints(p) as real, Apply(Gradient(p, x, t), Minus(y, x), |x|),
                2.0 * INNER_TOL * Form(p, x, t, Minus(y, x), Minus(y, x), |p.probs|));
  }

  /** A rise is at most m, or exceeds it by an amount whose square is within the bound. */
  predicate Beyond(rise: real, m: real, bound: real) {
    rise <= m || Sq(rise - m) <= bound
  }

  lemma ExcessSmall(rise: real, m: real, g: real, bound: real)
    requires rise <= m - g && Sq(g) <= bound
    ensures Beyond(rise, m, bound)
  {
    if rise - m > 0.0 {
      MulMono(-g, rise - m, rise - m);
      MulMono(-g, rise - m, -g);
    }
  }
}
