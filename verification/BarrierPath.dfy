/**
 The numbers of the damped Newton loop and of its outer rounds (app/portfolio.py, _barrier_solve): where the
 trials of a line search lie, when one is taken, and which round is the last.
 */
module BarrierPath {
  import opened Barrier
  import opened BarrierLoop
  import opened LinearSolver
  import opened RealSums

  function Power(base: nat, k: nat): (r: nat)
    requires base > 0
    ensures r > 0
  {
    if k == 0 then 1 else base * Power(base, k - 1)
  }

  lemma {:induction false} HalvedIs(k: nat)
    ensures Times(Halved(k), Power(2, k) as real) == 1.0
  {
    if k > 0 {
      HalvedIs(k - 1);
      var half, power := Halved(k - 1), Power(2, k - 1) as real;
      assert Power(2, k) as real == 2.0 * power;
      assert (half * 0.5) * (2.0 * power) == half * power;
    }
  }

  lemma {:induction false} WeightIs(k: nat)
    ensures Weight(k) == Power(15, k) as real
  {
    if k > 0 {
      WeightIs(k - 1);
      assert Power(15, k) as real == 15.0 * Power(15, k - 1) as real;
    }
  }

  // ---- the line search -------------------------------------------------------------------

  lemma {:induction false} MovedAlong(g: seq<real>, x: seq<real>, step: seq<real>, scale: real, n: nat)
    requires n <= |g| == |x| == |step|
    ensures Apply(g, Minus(Moved(x, step, scale), x), n) == Times(scale, Apply(g, step, n))
  {
    if n > 0 {
      MovedAlong(g, x, step, scale, n - 1);
      var before := Apply(g, step, n - 1);
      assert g[n - 1] * (scale * step[n - 1]) == scale * (g[n - 1] * step[n - 1]);
      assert scale * (before + g[n - 1] * step[n - 1]) == scale * before + scale * (g[n - 1] * step[n - 1]);
    }
  }

  lemma ScaledBack(scale: real, power: real, v: real, d: real)
    requires Times(scale, power) == 1.0 && d == Times(scale, v)
    ensures Times(power, d) == v
  {
    assert power * (scale * v) == (scale * power) * v;
  }

  /**
   The trial after k halvings lies from x in the direction of the Newton step, 2^k times nearer: along it the
   gradient is its value along the step over 2^k, and so never positive.
   */
  lemma TrialsDescend(p: Problem, x: seq<real>, t: real, step: seq<real>, k: nat)
    requires WellFormed(p) && |x| == |p.caps| == |step| && Feasible(p, x) && t >= 0.0
    requires Solves(Augment(Hessian(p, x, t), Negated(Gradient(p, x, t))), step)
    ensures var g, n := Gradient(p, x, t), |x|;
      var along := Apply(g, Minus(Moved(x, step, Halved(k)), x), n);
      && Times(Power(2, k) as real, along) == Apply(g, step, n) && Apply(g, step, n) <= 0.0 && along <= 0.0
  {
    hide Apply, Gradient, Hessian, Halved, Power, Minus, Moved, Feasible;
    var g, n := Gradient(p, x, t), |x|;
    NewtonDescends(p, x, t, step);
    HalvedIs(k);
    MovedAlong(g, x, step, Halved(k), n);
    ScaledBack(Halved(k), Power(2, k) as real, Apply(g, step, n), Apply(g, Minus(Moved(x, step, Halved(k)), x), n));
    TimesSign(Halved(k), Apply(g, step, n));
  }

  lemma TimesSign(scale: real, v: real)
    requires scale > 0.0 && v <= 0.0
    ensures Times(scale, v) <= 0.0
  {
  }

  /** A trial is taken exactly if it is strictly inside and 4 * 2^k times what it gains is at least the slope. */
  lemma AcceptsExactly(p: Problem, log: Log, x: seq<real>, t: real, step: seq<real>, decrement2: real, k: nat)
    requires WellFormed(p) && |x| == |p.caps| == |step| && Feasible(p, x) && OnPositives(log)
    ensures var trial := Moved(x, step, Halved(k));
      Accepts(p, log, x, t, step, decrement2, k)
      <==> Feasible(p, trial)
           && Times(4.0 * Power(2, k) as real, Phi(p, log, x, t) - Phi(p, log, trial, t)) >= decrement2
  {
    hide Phi, Halved, Power, Moved, Feasible;
    HalvedIs(k);
    var trial := Moved(x, step, Halved(k));
    if Feasible(p, trial) {
      Armijo(Phi(p, log, x, t), Phi(p, log, trial, t), Halved(k), Power(2, k) as real, decrement2);
    }
  }

  lemma Armijo(base: real, trial: real, scale: real, power: real, decrement2: real)
    requires scale > 0.0 && power > 0.0 && Times(scale, power) == 1.0
    ensures trial <= base + 0.25 * scale * -decrement2 <==> Times(4.0 * power, base - trial) >= decrement2
  {
    var gain := base - trial;
    assert 0.25 * scale * -decrement2 == -(0.25 * (scale * decrement2));
    assert (4.0 * power) * gain == 4.0 * (power * gain);
    assert scale * (power * gain) == (scale * power) * gain == gain;
    if power * gain * 4.0 >= decrement2 {
      MulMono(4.0 * (power * gain), decrement2, scale);
      assert 4.0 * (power * gain) * scale == 4.0 * gain;
    } else {
      MulStrict(decrement2, 4.0 * (power * gain), scale);
      assert 4.0 * (power * gain) * scale == 4.0 * gain;
    }
  }

  // ---- the rounds ------------------------------------------------------------------------

  /** Round k is the last exactly if 15^k, and no earlier power, reaches the constraints times a hundred million. */
  lemma LastRound(p: Problem, k: nat)
    ensures FirstWithin(p, k)
       <==> Constraints(p) * 100_000_000 <= Power(15, k)
            && (k > 0 ==> Constraints(p) * 100_000_000 > Power(15, k - 1))
  {
    hide Constraints, Weight;
    forall j: nat
      ensures Constraints(p) as real / Weight(j) <= GAP_TOL <==> Constraints(p) * 100_000_000 <= Power(15, j)
    {
      WeightIs(j);
      GapOfRound(Constraints(p), Power(15, j));
    }
    if k > 0 {
      forall j | 0 <= j < k ensures Power(15, j) <= Power(15, k - 1) { PowersGrow(j, k - 1); }
    }
  }

  lemma GapOfRound(m: nat, w: nat)
    requires w > 0
    ensures m as real / w as real <= GAP_TOL <==> m * 100_000_000 <= w
  {
    var q := m as real / w as real;
    Quotient(m as real, w as real, q);
    if q <= GAP_TOL { MulMono(GAP_TOL, q, w as real); } else { MulStrict(q, GAP_TOL, w as real); }
    assert (m * 100_000_000) as real == m as real * 100_000_000.0;
  }

  lemma {:induction false} PowersGrow(j: nat, k: nat)
    requires j <= k
    ensures Power(15, j) <= Power(15, k)
  {
    if j < k { PowersGrow(j, k - 1); }
  }

  /** A point is taken as centred exactly if the slope along some Newton step is above -2e-10. */
  lemma CentredExactly(p: Problem, x: seq<real>, t: real)
    requires WellFormed(p) && |x| == |p.caps| && Feasible(p, x) && t >= 0.0
    ensures Centred(p, x, t)
       <==> exists step: seq<real> | |step| == |x| ::
              && Solves(Augment(Hessian(p, x, t), Negated(Gradient(p, x, t))), step)
              && Apply(Gradient(p, x, t), step, |x|) >= -0.0000000002
  {
    hide Apply, Gradient, Hessian, Feasible;
    forall step: seq<real> | |step| == |x| && Solves(Augment(Hessian(p, x, t), Negated(Gradient(p, x, t))), step)
      ensures Apply(Gradient(p, x, t), step, |x|) <= 0.0
    {
      NewtonDescends(p, x, t, step);
    }
  }
}
