/**
 Joint Kelly sizing (app/portfolio.py, solve_joint_kelly): the analytical single bet, the
 interior-point solution for a book, and the shrink, clip, rescale and snap that follow it.
 */
module JointKelly {
  import opened Barrier
  import opened BarrierLoop
  import opened Options
  import opened RealSums
  import opened ScenarioLaw
  import opened Scenarios

  datatype Status = Optimal | Watch

  datatype KellyResult = KellyResult(status: Status, stakes: seq<real>, fractions: seq<real>,
                                     gap: Option<real>, scenarios: nat, reason: string)

  const ZERO_FRACTION: real := 0.000001

  function Budget(maxTotal: real): real { Min(Max(0.0, maxTotal), 1.0) }

  function CapFraction(c: Candidate, bankroll: real): real
    requires bankroll > 0.0
  {
    Max(0.0, c.cap) / bankroll
  }

  // ---- the single bet --------------------------------------------------------------------

  /** Unconstrained Kelly fraction; zero when a win pays nothing. */
  function RawKelly(prob: real, payoff: real): real {
    if payoff > 0.0 then (prob * (payoff + 1.0) - 1.0) / payoff else 0.0
  }

  function SingleBet(prob: real, payoff: real, multiplier: real, cap: real, budget: real): real {
    Min(Min(Max(0.0, RawKelly(prob, payoff)) * Max(0.0, multiplier), cap), budget)
  }

  /** Expected log growth of staking the fraction f. */
  ghost function BetGrowth(log: Log, prob: real, payoff: real, f: real): real
    requires OnPositives(log) && 1.0 + payoff * f > 0.0 && 1.0 - f > 0.0
  {
    Times(prob, log(1.0 + payoff * f)) + Times(1.0 - prob, log(1.0 - f))
  }

  lemma RawKellyEquation(prob: real, payoff: real, raw: real)
    requires payoff > 0.0 && raw == RawKelly(prob, payoff)
    ensures raw * payoff == prob * (payoff + 1.0) - 1.0
  {
    Quotient(prob * (payoff + 1.0) - 1.0, payoff, raw);
  }

  lemma RawBelowOne(prob: real, payoff: real, raw: real)
    requires payoff > 0.0 && prob < 1.0 && raw == RawKelly(prob, payoff)
    ensures raw < 1.0
  {
    RawKellyEquation(prob, payoff, raw);
    if raw >= 1.0 {
      MulMono(raw, 1.0, payoff);
      MulStrict(1.0, prob, payoff + 1.0);
      assert false;
    }
  }

  lemma WealthPositive(payoff: real, f: real)
    requires payoff > 0.0 && 0.0 <= f < 1.0
    ensures 1.0 + payoff * f > 0.0 && 1.0 - f > 0.0
  {
    MulMono(f, 0.0, payoff);
  }

  /** Tangent slopes at f combine to the raw Kelly excess over the two wealths. */
  lemma SlopeIdentity(prob: real, payoff: real, f: real, raw: real, w: real, l: real)
    requires raw * payoff == prob * (payoff + 1.0) - 1.0
    requires w == 1.0 + payoff * f && l == 1.0 - f
    ensures prob * payoff * l - (1.0 - prob) * w == payoff * (raw - f)
  {
    assert payoff * (raw - f) == raw * payoff - payoff * f;
  }

  /** With a and b the inverses of the two wealths: the tangents at f do not rise towards y. */
  lemma TangentGain(prob: real, payoff: real, f: real, d: real, raw: real, a: real, b: real,
                    u: real, v: real)
    requires payoff > 0.0 && a > 0.0 && b > 0.0
    requires a * (1.0 + payoff * f) == 1.0 && b * (1.0 - f) == 1.0
    requires raw * payoff == prob * (payoff + 1.0) - 1.0
    requires d * (raw - f) <= 0.0 && u == payoff * d * a && v == -1.0 * d * b
    ensures Times(prob, u) + Times(1.0 - prob, v) <= 0.0
  {
    var w, l := 1.0 + payoff * f, 1.0 - f;
    SlopeIdentity(prob, payoff, f, raw, w, l);
    Combine(prob, payoff, d, a, b, w, l, payoff * (raw - f));
    SignOfGain(payoff, d, raw - f, a, b);
  }

  lemma InversePositive(w: real, a: real)
    requires w > 0.0 && a * w == 1.0
    ensures a > 0.0
  {
    if a <= 0.0 {
      MulMono(0.0, a, w);
      assert false;
    }
  }

  lemma Combine(prob: real, payoff: real, d: real, a: real, b: real, w: real, l: real, slope: real)
    requires a * w == 1.0 && b * l == 1.0
    requires prob * payoff * l - (1.0 - prob) * w == slope
    ensures Times(prob, payoff * d * a) + Times(1.0 - prob, -d * b) == d * slope * (a * b)
  {
    assert (prob * payoff * l) * (a * b) == prob * payoff * a * (b * l) == prob * payoff * a;
    assert ((1.0 - prob) * w) * (a * b) == (1.0 - prob) * b * (a * w) == (1.0 - prob) * b;
    assert slope * (a * b) == (prob * payoff * l) * (a * b) - ((1.0 - prob) * w) * (a * b);
    assert d * slope * (a * b) == d * (slope * (a * b));
  }

  lemma SignOfGain(payoff: real, d: real, gap: real, a: real, b: real)
    requires payoff > 0.0 && a > 0.0 && b > 0.0 && d * gap <= 0.0
    ensures d * (payoff * gap) * (a * b) <= 0.0
  {
    ProductPositive(a, b, a * b);
    assert d * (payoff * gap) == payoff * (d * gap);
    MulMono(0.0, d * gap, payoff);
    MulMono(0.0, d * (payoff * gap), a * b);
  }

  lemma ClippedSide(raw: real, bound: real, f: real, y: real)
    requires bound >= 0.0 && f == Min(Max(0.0, raw), bound) && 0.0 <= y <= bound
    ensures (y - f) * (raw - f) <= 0.0
  {
    if raw < 0.0 {
      MulMono(y - f, 0.0, f - raw);
    } else if raw > bound {
      MulMono(f - y, 0.0, raw - f);
    }
  }

  /**
   At multiplier 1 the analytical fraction maximises the expected log growth of buying shares at the price,
   over everything the cap and the budget allow, also when the raw value is negative or cut.
   */
  lemma SingleBetOptimal(log: Log, prob: real, price: real, cap: real, budget: real, y: real)
    requires OnPositives(log) && BelowTangents(log)
    requires 0.0 < prob < 1.0 && 0.0 < price < 1.0 && cap >= 0.0 && budget >= 0.0
    requires 0.0 <= y <= cap && y <= budget && y < 1.0
    ensures var f := SingleBet(prob, PayoffIfWin(price), 1.0, cap, budget);
      && 0.0 <= f < 1.0
      && WonWealth(price, f) > 0.0 && WonWealth(price, y) > 0.0
      && ShareGrowth(log, prob, price, y) <= ShareGrowth(log, prob, price, f)
  {
    hide Times, PayoffIfWin, SingleBet, WonWealth, ShareGrowth, BetGrowth, BelowTangents;
    PayoffSingleBet(log, prob, price, cap, budget, y);
    var payoff := PayoffIfWin(price);
    var f := SingleBet(prob, payoff, 1.0, cap, budget);
    WonWealthIs(log, prob, price, payoff, f);
    WonWealthIs(log, prob, price, payoff, y);
  }

  /** Wealth after a win: what was not staked, and a dollar for each share that the stake bought. */
  function WonWealth(price: real, f: real): real
    requires price > 0.0
  {
    1.0 - f + f / price
  }

  /** Expected log growth of staking the fraction f at the price. */
  ghost function ShareGrowth(log: Log, prob: real, price: real, f: real): real
    requires OnPositives(log) && price > 0.0 && WonWealth(price, f) > 0.0 && f < 1.0
  {
    Times(prob, log(WonWealth(price, f))) + Times(1.0 - prob, log(1.0 - f))
  }

  lemma WonWealthIs(log: Log, prob: real, price: real, payoff: real, f: real)
    requires OnPositives(log) && 0.0 < price < 1.0 && payoff == PayoffIfWin(price) && 0.0 <= f < 1.0
    ensures WonWealth(price, f) == 1.0 + payoff * f > 0.0
    ensures ShareGrowth(log, prob, price, f) == BetGrowth(log, prob, payoff, f)
  {
    PayoffPositive(price);
    WealthPositive(payoff, f);
    PayoffBuysShares(price);
    BoughtShares(price, payoff, f, f / price);
    hide PayoffIfWin, Times;
    GrowthOf(log, prob, payoff, f, WonWealth(price, f), 1.0 - f);
  }

  lemma BoughtShares(price: real, payoff: real, f: real, shares: real)
    requires price > 0.0 && (1.0 + payoff) * price == 1.0 && shares == f / price
    ensures 1.0 - f + shares == 1.0 + payoff * f
  {
    Quotient(f, price, shares);
    assert (shares - (1.0 + payoff) * f) * price == f - f * ((1.0 + payoff) * price);
    if shares != (1.0 + payoff) * f {
      NoZeroProduct(shares - (1.0 + payoff) * f, price);
    }
  }

  lemma NoZeroProduct(a: real, b: real)
    requires a != 0.0 && b > 0.0
    ensures a * b != 0.0
  {
    if a > 0.0 { MulStrict(a, 0.0, b); } else { MulStrict(0.0, a, b); }
  }

  lemma PayoffSingleBet(log: Log, prob: real, price: real, cap: real, budget: real, y: real)
    requires OnPositives(log) && BelowTangents(log)
    requires 0.0 < prob < 1.0 && 0.0 < price < 1.0 && cap >= 0.0 && budget >= 0.0
    requires 0.0 <= y <= cap && y <= budget && y < 1.0
    ensures var payoff := PayoffIfWin(price); var f := SingleBet(prob, payoff, 1.0, cap, budget);
      && 0.0 <= f < 1.0
      && 1.0 + payoff * f > 0.0 && 1.0 + payoff * y > 0.0
      && BetGrowth(log, prob, payoff, y) <= BetGrowth(log, prob, payoff, f)
  {
    hide Times, RawKelly, PayoffIfWin;
    var payoff, bound := PayoffIfWin(price), Min(cap, budget);
    PayoffPositive(price);
    var raw := RawKelly(prob, payoff);
    var f := SingleBet(prob, payoff, 1.0, cap, budget);
    RawKellyEquation(prob, payoff, raw);
    RawBelowOne(prob, payoff, raw);
    assert f == Min(Max(0.0, raw), bound);
    WealthPositive(payoff, f);
    WealthPositive(payoff, y);
    ClippedSide(raw, bound, f, y);
    BetterThan(log, prob, payoff, f, y, raw);
  }

  lemma BetterThan(log: Log, prob: real, payoff: real, f: real, y: real, raw: real)
    requires OnPositives(log) && BelowTangents(log) && 0.0 < prob < 1.0 && payoff > 0.0
    requires 1.0 + payoff * f > 0.0 && 1.0 - f > 0.0 && 1.0 + payoff * y > 0.0 && 1.0 - y > 0.0
    requires raw * payoff == prob * (payoff + 1.0) - 1.0 && (y - f) * (raw - f) <= 0.0
    ensures BetGrowth(log, prob, payoff, y) <= BetGrowth(log, prob, payoff, f)
  {
    hide Times, BelowTangents, BetGrowth;
    var w, l, win, lose := 1.0 + payoff * f, 1.0 - f, 1.0 + payoff * y, 1.0 - y;
    var d := y - f;
    Moved(payoff, f, y, d);
    var a, u := TangentShare(log, prob, w, win, payoff, d);
    var b, v := TangentShare(log, 1.0 - prob, l, lose, -1.0, d);
    TangentGain(prob, payoff, f, d, raw, a, b, u, v);
    GrowthOf(log, prob, payoff, f, w, l);
    GrowthOf(log, prob, payoff, y, win, lose);
  }

  lemma GrowthOf(log: Log, prob: real, payoff: real, f: real, w: real, l: real)
    requires OnPositives(log) && w == 1.0 + payoff * f > 0.0 && l == 1.0 - f > 0.0
    ensures BetGrowth(log, prob, payoff, f) == Times(prob, log(w)) + Times(1.0 - prob, log(l))
  {
    hide Times;
  }

  lemma Moved(payoff: real, f: real, y: real, d: real)
    requires d == y - f
    ensures (1.0 + payoff * y) - (1.0 + payoff * f) == payoff * d
  {
  }

  /** What one outcome adds to the growth of y over f lies below its tangent at f. */
  lemma TangentShare(log: Log, prob: real, w: real, next: real, slope: real, d: real)
    returns (a: real, u: real)
    requires OnPositives(log) && BelowTangents(log) && prob >= 0.0 && w > 0.0 && next > 0.0
    requires next - w == slope * d
    ensures a > 0.0 && a * w == 1.0 && u == slope * d * a
    ensures Times(prob, log(next)) - Times(prob, log(w)) <= Times(prob, u)
  {
    hide Times;
    a := 1.0 / w;
    u := slope * d * a;
    Quotient(1.0, w, a);
    InversePositive(w, a);
    ByInverse(next - w, slope * d, w, a);
    Weighted(prob, log(next) - log(w), u);
    TimesLess(prob, log(next), log(w));
  }

  lemma ByInverse(rise: real, moved: real, w: real, a: real)
    requires w > 0.0 && a == 1.0 / w && rise == moved
    ensures rise / w == moved * a
  {
  }

  lemma Weighted(prob: real, a: real, b: real)
    requires prob >= 0.0 && a <= b
    ensures Times(prob, a) <= Times(prob, b)
  {
    MulMono(b, a, prob);
  }

  lemma TimesLess(c: real, a: real, b: real)
    ensures Times(c, a - b) == Times(c, a) - Times(c, b)
  {
  }

  // ---- shrink, clip, rescale, snap -------------------------------------------------------

  function Shrink(v: real, multiplier: real, cap: real): real { Min(Max(0.0, multiplier * v), cap) }

  function Shrunk(x: seq<real>, multiplier: real, caps: seq<real>): (r: seq<real>)
    requires |x| == |caps|
    ensures |r| == |x| && forall i | 0 <= i < |x| :: r[i] == Shrink(x[i], multiplier, caps[i])
  {
    seq(|x|, i requires 0 <= i < |x| => Shrink(x[i], multiplier, caps[i]))
  }

  function Rescale(v: real, budget: real, total: real): real
    requires total > 0.0
  {
    v * budget / total
  }

  function Rescaled(x: seq<real>, budget: real, total: real): (r: seq<real>)
    requires total > 0.0
    ensures |r| == |x| && forall i | 0 <= i < |x| :: r[i] == Rescale(x[i], budget, total)
  {
    seq(|x|, i requires 0 <= i < |x| => Rescale(x[i], budget, total))
  }

  function Snap(v: real): real { if v < ZERO_FRACTION then 0.0 else v }

  function Snapped(x: seq<real>): (r: seq<real>)
    ensures |r| == |x| && forall i | 0 <= i < |x| :: r[i] == Snap(x[i])
  {
    seq(|x|, i requires 0 <= i < |x| => Snap(x[i]))
  }

  function Finished(x: seq<real>, multiplier: real, caps: seq<real>, budget: real): (r: seq<real>)
    requires |x| == |caps|
    ensures |r| == |x|
  {
    var reduced := Shrunk(x, multiplier, caps);
    var total := SumTo(reduced, |reduced|);
    Snapped(if total > budget && total > 0.0 then Rescaled(reduced, budget, total) else reduced)
  }

  lemma {:induction false} RescaledSum(x: seq<real>, budget: real, total: real, c: real, k: nat)
    requires total > 0.0 && c == budget / total && k <= |x|
    ensures SumTo(Rescaled(x, budget, total), k) == Times(SumTo(x, k), c)
  {
    hide Rescale, Times;
    if k == 0 {
      TimesFacts(c, 0.0, 0.0);
    } else {
      RescaledSum(x, budget, total, c, k - 1);
      RescaledEntry(x[k - 1], budget, total, c);
      TimesFacts(SumTo(x, k - 1), x[k - 1], c);
    }
  }

  lemma RescaledEntry(v: real, budget: real, total: real, c: real)
    requires total > 0.0 && c == budget / total
    ensures Rescale(v, budget, total) == Times(v, c)
  {
  }

  lemma RescaledBound(v: real, budget: real, total: real, c: real)
    requires total > 0.0 && c == budget / total && v >= 0.0 && 0.0 <= budget <= total
    ensures 0.0 <= Times(v, c) <= v
  {
    Quotient(budget, total, c);
    if c > 1.0 {
      MulStrict(c, 1.0, total);
      assert false;
    } else if c < 0.0 {
      MulStrict(0.0, c, total);
      assert false;
    }
    MulMono(1.0, c, v);
    MulMono(c, 0.0, v);
  }

  lemma {:induction false} SnappedSum(x: seq<real>, k: nat)
    requires k <= |x| && forall i | 0 <= i < |x| :: x[i] >= 0.0
    ensures 0.0 <= SumTo(Snapped(x), k) <= SumTo(x, k)
  {
    if k > 0 { SnappedSum(x, k - 1); }
  }

  lemma {:induction false} SumNonNegative(x: seq<real>, k: nat)
    requires k <= |x| && forall i | 0 <= i < |x| :: x[i] >= 0.0
    ensures SumTo(x, k) >= 0.0
  {
    if k > 0 { SumNonNegative(x, k - 1); }
  }

  /** Shrinking, clipping, rescaling and snapping stay inside every cap and the budget. */
  lemma FinishedBounds(x: seq<real>, multiplier: real, caps: seq<real>, budget: real)
    requires |x| == |caps| && budget >= 0.0 && forall i | 0 <= i < |caps| :: caps[i] >= 0.0
    ensures var r := Finished(x, multiplier, caps, budget);
      (forall i | 0 <= i < |r| :: 0.0 <= r[i] <= caps[i]) && SumTo(r, |r|) <= budget
  {
    hide SumTo, Times, Rescale;
    var reduced := Shrunk(x, multiplier, caps);
    var total := SumTo(reduced, |reduced|);
    assert forall i | 0 <= i < |reduced| :: 0.0 <= reduced[i] <= caps[i];
    SumNonNegative(reduced, |reduced|);
    if total > budget && total > 0.0 {
      var scaled, c := Rescaled(reduced, budget, total), budget / total;
      forall i | 0 <= i < |scaled| ensures 0.0 <= scaled[i] <= caps[i] {
        RescaledEntry(reduced[i], budget, total, c);
        RescaledBound(reduced[i], budget, total, c);
      }
      RescaledSum(reduced, budget, total, c, |reduced|);
      Quotient(budget, total, c);
      TimesMeaning(total, c);
      SnappedSum(scaled, |scaled|);
    } else {
      SnappedSum(reduced, |reduced|);
    }
  }

  /** At multiplier 1 a strictly feasible point is only snapped. */
  lemma FullKellyOnlySnaps(x: seq<real>, caps: seq<real>, budget: real)
    requires |x| == |caps| && SumTo(x, |x|) < budget
    requires forall i | 0 <= i < |x| :: 0.0 < x[i] < caps[i]
    ensures Finished(x, 1.0, caps, budget) == Snapped(x)
  {
    assert Shrunk(x, 1.0, caps) == x;
  }

  // ---- the book --------------------------------------------------------------------------

  predicate Stakeable(c: Candidate) { c.cap > 0.0 && PayoffIfWin(c.price) > 0.0 }

  /** Indices below k that can be staked, in order. */
  function Active(cs: seq<Candidate>, k: nat): (r: seq<nat>)
    requires k <= |cs|
    ensures forall a | 0 <= a < |r| :: r[a] < k && Stakeable(cs[r[a]])
    ensures forall a, b | 0 <= a < b < |r| :: r[a] < r[b]
    ensures forall i | 0 <= i < k && Stakeable(cs[i]) :: i in r
  {
    if k == 0 then [] else Active(cs, k - 1) + (if Stakeable(cs[k - 1]) then [k - 1] else [])
  }

  function Chosen(cs: seq<Candidate>): (r: seq<Candidate>)
    ensures |r| == |Active(cs, |cs|)|
    ensures forall a | 0 <= a < |r| :: r[a] == cs[Active(cs, |cs|)[a]]
  {
    var active := Active(cs, |cs|);
    seq(|active|, a requires 0 <= a < |active| => cs[active[a]])
  }

  function CapsOf(cs: seq<Candidate>, bankroll: real): (r: seq<real>)
    requires bankroll > 0.0
    ensures |r| == |cs| && forall i | 0 <= i < |cs| :: r[i] == CapFraction(cs[i], bankroll)
  {
    seq(|cs|, i requires 0 <= i < |cs| => CapFraction(cs[i], bankroll))
  }

  /** The constrained program handed to the barrier loop. */
  function ProblemOf(chosen: seq<Candidate>, bankroll: real, budget: real, epsilon: real): (p: Problem)
    requires bankroll > 0.0
    ensures |p.caps| == |chosen| && p.budget == budget && p.epsilon == epsilon
  {
    var scenarios := ScenariosOf(chosen);
    Problem(seq(|scenarios|, k requires 0 <= k < |scenarios| => scenarios[k].profits),
            seq(|scenarios|, k requires 0 <= k < |scenarios| => scenarios[k].probability),
            CapsOf(chosen, bankroll), budget, epsilon)
  }

  lemma ProblemWellFormed(chosen: seq<Candidate>, bankroll: real, budget: real, epsilon: real)
    requires bankroll > 0.0 && budget <= 1.0 && forall i | 0 <= i < |chosen| :: Stakeable(chosen[i])
    ensures var p := ProblemOf(chosen, bankroll, budget, epsilon);
      && WellFormed(p)
      && (forall i | 0 <= i < |p.caps| :: p.caps[i] > 0.0)
      && (forall k, i | 0 <= k < |p.profits| && 0 <= i < |p.caps| :: p.profits[k][i] >= -1.0)
  {
    hide CapFraction, PayoffIfWin, Combos, Names;
    JointLawHolds(chosen, {});
    var p, scenarios := ProblemOf(chosen, bankroll, budget, epsilon), ScenariosOf(chosen);
    forall k | 0 <= k < |p.profits|
      ensures |p.profits[k]| == |p.caps| && p.probs[k] >= 0.0
      ensures forall i | 0 <= i < |p.caps| :: p.profits[k][i] >= -1.0
    {
      assert scenarios[k] in scenarios;
      assert p.profits[k] == Returns(chosen, Combos(chosen, Names(chosen))[k].1);
    }
    forall i | 0 <= i < |p.caps| ensures p.caps[i] > 0.0 {
      assert Stakeable(chosen[i]);
      CapPositive(chosen[i], bankroll);
    }
  }

  lemma CapPositive(c: Candidate, bankroll: real)
    requires bankroll > 0.0
    ensures CapFraction(c, bankroll) >= 0.0
    ensures c.cap > 0.0 ==> CapFraction(c, bankroll) > 0.0
    ensures CapFraction(c, bankroll) * bankroll == Max(0.0, c.cap)
  {
    var q := CapFraction(c, bankroll);
    Quotient(Max(0.0, c.cap), bankroll, q);
    if q < 0.0 {
      MulStrict(0.0, q, bankroll);
      assert false;
    }
  }

  lemma {:induction false} SumUpdate(f: seq<real>, i: nat, v: real, k: nat)
    requires i < |f| && k <= |f|
    ensures SumTo(f[i := v], k) == SumTo(f, k) + (if i < k then v - f[i] else 0.0)
  {
    if k > 0 { SumUpdate(f, i, v, k - 1); }
  }

  lemma {:induction false} ZeroSum(n: nat, k: nat)
    requires k <= n
    ensures SumTo(Repeat(0.0, n), k) == 0.0
  {
    if k > 0 { ZeroSum(n, k - 1); }
  }

  /** Writes the active fractions back to their original positions. */
  method Scatter(n: nat, active: seq<nat>, reduced: seq<real>) returns (f: seq<real>)
    requires |reduced| == |active|
    requires forall a | 0 <= a < |active| :: active[a] < n
    requires forall a, b | 0 <= a < b < |active| :: active[a] < active[b]
    ensures |f| == n && SumTo(f, n) == SumTo(reduced, |reduced|)
    ensures forall a | 0 <= a < |active| :: f[active[a]] == reduced[a]
    ensures forall i | 0 <= i < n && i !in active :: f[i] == 0.0
  {
    f := Repeat(0.0, n);
    ZeroSum(n, n);
    for slot := 0 to |active|
      invariant |f| == n && SumTo(f, n) == SumTo(reduced, slot)
      invariant forall a | 0 <= a < slot :: f[active[a]] == reduced[a]
      invariant forall a | slot <= a < |active| :: f[active[a]] == 0.0
      invariant forall i | 0 <= i < n && i !in active :: f[i] == 0.0
    {
      SumUpdate(f, active[slot], reduced[slot], n);
      f := f[active[slot] := reduced[slot]];
    }
  }

  /** Non-negative fractions inside every cap and the budget; stakes are their dollar values. */
  ghost predicate Bounded(cs: seq<Candidate>, bankroll: real, maxTotal: real, r: KellyResult) {
    && |r.stakes| == |r.fractions| == |cs|
    && SumTo(r.fractions, |cs|) <= Budget(maxTotal)
    && forall i | 0 <= i < |cs| ::
         && r.fractions[i] >= 0.0
         && 0.0 <= r.stakes[i] <= Max(0.0, cs[i].cap)
         && (bankroll > 0.0 ==> r.stakes[i] == Times(r.fractions[i], bankroll))
         && (r.fractions[i] > 0.0 ==> Stakeable(cs[i]))
  }

  ghost predicate AllZero(r: KellyResult) {
    && (forall i | 0 <= i < |r.stakes| :: r.stakes[i] == 0.0)
    && (forall i | 0 <= i < |r.fractions| :: r.fractions[i] == 0.0)
  }

  function Zeros(n: nat, status: Status, gap: Option<real>, scenarios: nat, reason: string): KellyResult {
    KellyResult(status, Repeat(0.0, n), Repeat(0.0, n), gap, scenarios, reason)
  }

  lemma ZerosBounded(cs: seq<Candidate>, bankroll: real, maxTotal: real, status: Status,
                     gap: Option<real>, scenarios: nat, reason: string)
    ensures Bounded(cs, bankroll, maxTotal, Zeros(|cs|, status, gap, scenarios, reason))
    ensures AllZero(Zeros(|cs|, status, gap, scenarios, reason))
  {
    ZeroSum(|cs|, |cs|);
  }

  lemma StakeBound(f: real, c: Candidate, bankroll: real)
    requires bankroll > 0.0 && 0.0 <= f <= CapFraction(c, bankroll)
    ensures 0.0 <= Times(f, bankroll) <= Max(0.0, c.cap)
  {
    CapPositive(c, bankroll);
    MulMono(f, 0.0, bankroll);
    MulMono(CapFraction(c, bankroll), f, bankroll);
  }

  function Dollars(fractions: seq<real>, bankroll: real): (r: seq<real>)
    ensures |r| == |fractions| && forall i | 0 <= i < |r| :: r[i] == Times(fractions[i], bankroll)
  {
    seq(|fractions|, i requires 0 <= i < |fractions| => Times(fractions[i], bankroll))
  }

  /** The solver reached its tolerances at `iterate`, and the book is that point, finished. */
  ghost predicate Solved(cs: seq<Candidate>, bankroll: real, multiplier: real, p: Problem,
                         r: KellyResult, iterate: seq<real>, t: real)
    requires bankroll > 0.0 && WellFormed(p)
  {
    var active := Active(cs, |cs|);
    && |iterate| == |p.caps| == |active| && |r.fractions| == |cs|
    && Feasible(p, iterate) && t >= 1.0 && Centred(p, iterate, t)
    && r.gap == Some(Constraints(p) as real / t) && r.gap.value <= GAP_TOL
    && forall a | 0 <= a < |active| ::
         r.fractions[active[a]] == Finished(iterate, multiplier, p.caps, p.budget)[a]
  }

  /** What the sizing of these candidates may return. */
  ghost predicate Answers(cs: seq<Candidate>, bankroll: real, kellyMultiplier: real, maxTotal: real, epsilon: real,
                          r: KellyResult, iterate: seq<real>, t: real)
  {
    && Bounded(cs, bankroll, maxTotal, r)
    && (r.status.Watch? || bankroll <= 0.0 ==> AllZero(r))
    && (cs == [] || bankroll <= 0.0 || (|cs| > 1 && Active(cs, |cs|) == []) ==> r.status.Optimal? && AllZero(r))
    && (|cs| == 1 && bankroll > 0.0 ==>
          && r.status.Optimal?
          && r.fractions == [SingleBet(cs[0].prob, PayoffIfWin(cs[0].price), kellyMultiplier,
                                       CapFraction(cs[0], bankroll), Budget(maxTotal))])
    && (|cs| > 1 && bankroll > 0.0 && Active(cs, |cs|) != [] ==>
          var p := ProblemOf(Chosen(cs), bankroll, Budget(maxTotal), epsilon);
          && WellFormed(p)
          && (r.status.Optimal? ==> Solved(cs, bankroll, Max(0.0, kellyMultiplier), p, r, iterate, t))
          && (AtomProduct(Chosen(cs), Names(Chosen(cs))) > MAX_SCENARIOS ==> r.status.Watch?)
          && (maxTotal <= 0.0 ==> r.status.Watch?))
  }

  lemma AnswersBounded(cs: seq<Candidate>, bankroll: real, kellyMultiplier: real, maxTotal: real, epsilon: real,
                       r: KellyResult, iterate: seq<real>, t: real)
    requires Answers(cs, bankroll, kellyMultiplier, maxTotal, epsilon, r, iterate, t)
    ensures Bounded(cs, bankroll, maxTotal, r) && (bankroll <= 0.0 ==> AllZero(r))
  {
    hide Bounded, AllZero, Solved, ProblemOf, SingleBet;
  }

  method SolveJointKelly(cs: seq<Candidate>, bankroll: real, kellyMultiplier: real, maxTotal: real,
                         epsilon: real, log: Log)
    returns (r: KellyResult, ghost iterate: seq<real>, ghost t: real)
    requires OnPositives(log)
    ensures Answers(cs, bankroll, kellyMultiplier, maxTotal, epsilon, r, iterate, t)
  {
    hide Feasible, Centred, CapFraction, PayoffIfWin, SumTo, Combos, AtomProduct, Finished, SingleBet;
    var n := |cs|;
    iterate, t := [], 1.0;
    if n == 0 || bankroll <= 0.0 {
      ZerosBounded(cs, bankroll, maxTotal, Optimal, Some(0.0), 0, "no candidates");
      return Zeros(n, Optimal, Some(0.0), 0, "no candidates"), iterate, t;
    }
    var multiplier, budget := Max(0.0, kellyMultiplier), Budget(maxTotal);
    if n == 1 {
      var f := SingleBet(cs[0].prob, PayoffIfWin(cs[0].price), kellyMultiplier,
                         CapFraction(cs[0], bankroll), budget);
      SingleBetBounded(cs, bankroll, maxTotal, kellyMultiplier, f);
      return KellyResult(Optimal, [Times(f, bankroll)], [f], Some(0.0), 2, "single-bet analytical Kelly"),
        iterate, t;
    }
    var active := Active(cs, n);
    if active == [] {
      ZerosBounded(cs, bankroll, maxTotal, Optimal, Some(0.0), 0, "no stakeable edge");
      return Zeros(n, Optimal, Some(0.0), 0, "no stakeable edge"), iterate, t;
    }
    var chosen := Chosen(cs);
    ghost var p := ProblemOf(chosen, bankroll, budget, epsilon);
    ProblemWellFormed(chosen, bankroll, budget, epsilon);
    if maxTotal <= 0.0 { EmptyBudget(p); }
    var scenarios := EnumerateScenarios(chosen);
    if scenarios.None? {
      ZerosBounded(cs, bankroll, maxTotal, Watch, None, 0, "portfolio_state_space_too_large");
      return Zeros(n, Watch, None, 0, "portfolio_state_space_too_large"), iterate, t;
    }
    var count := |scenarios.value|;
    var program := ProblemOf(chosen, bankroll, budget, epsilon);
    var solved;
    solved, t := BarrierSolve(program, log);
    if solved.None? {
      ZerosBounded(cs, bankroll, maxTotal, Watch, None, count, "kelly_solver_did_not_converge");
      return Zeros(n, Watch, None, count, "kelly_solver_did_not_converge"), iterate, t;
    }
    iterate := solved.value.0;
    var reduced := Finished(solved.value.0, multiplier, program.caps, budget);
    var fractions := Scatter(n, active, reduced);
    r := KellyResult(Optimal, Dollars(fractions, bankroll), fractions, Some(solved.value.1), count, "kkt-optimal");
    BookBounded(cs, bankroll, maxTotal, multiplier, p, r, solved.value.0, active);
  }

  lemma SingleBetBounded(cs: seq<Candidate>, bankroll: real, maxTotal: real, multiplier: real, f: real)
    requires |cs| == 1 && bankroll > 0.0
    requires f == SingleBet(cs[0].prob, PayoffIfWin(cs[0].price), multiplier,
                            CapFraction(cs[0], bankroll), Budget(maxTotal))
    ensures Bounded(cs, bankroll, maxTotal,
                    KellyResult(Optimal, [Times(f, bankroll)], [f], Some(0.0), 2, "single-bet analytical Kelly"))
  {
    hide PayoffIfWin, CapFraction, RawKelly, Times;
    CapPositive(cs[0], bankroll);
    var raw := Max(0.0, RawKelly(cs[0].prob, PayoffIfWin(cs[0].price)));
    MulMono(raw, 0.0, Max(0.0, multiplier));
    assert 0.0 <= f <= CapFraction(cs[0], bankroll) && f <= Budget(maxTotal);
    StakeBound(f, cs[0], bankroll);
    assert SumTo([f], 1) == SumTo([f], 0) + f == f;
    if f > 0.0 { SingleBetStakeable(cs[0], bankroll, raw, Max(0.0, multiplier)); }
  }

  lemma SingleBetStakeable(c: Candidate, bankroll: real, raw: real, multiplier: real)
    requires bankroll > 0.0 && raw == Max(0.0, RawKelly(c.prob, PayoffIfWin(c.price)))
    requires raw * multiplier > 0.0 && CapFraction(c, bankroll) > 0.0
    ensures Stakeable(c)
  {
  }

  lemma BookBounded(cs: seq<Candidate>, bankroll: real, maxTotal: real, multiplier: real, p: Problem,
                    r: KellyResult, x: seq<real>, active: seq<nat>)
    requires bankroll > 0.0 && active == Active(cs, |cs|) && p.caps == CapsOf(Chosen(cs), bankroll)
    requires |x| == |p.caps| && |r.fractions| == |cs| && r.stakes == Dollars(r.fractions, bankroll)
    requires var done := Finished(x, multiplier, p.caps, Budget(maxTotal));
      && SumTo(r.fractions, |cs|) == SumTo(done, |done|)
      && (forall a | 0 <= a < |active| :: r.fractions[active[a]] == done[a])
      && (forall i | 0 <= i < |cs| && i !in active :: r.fractions[i] == 0.0)
    ensures Bounded(cs, bankroll, maxTotal, r)
  {
    hide SumTo, Finished, CapFraction, Stakeable, Active, Chosen, CapsOf, Dollars, Times;
    var done := Finished(x, multiplier, p.caps, Budget(maxTotal));
    forall a | 0 <= a < |p.caps| ensures p.caps[a] >= 0.0 { CapPositive(Chosen(cs)[a], bankroll); }
    FinishedBounds(x, multiplier, p.caps, Budget(maxTotal));
    forall i | 0 <= i < |cs|
      ensures 0.0 <= r.fractions[i] <= CapFraction(cs[i], bankroll)
      ensures r.fractions[i] > 0.0 ==> Stakeable(cs[i])
    {
      if i in active {
        var a :| 0 <= a < |active| && active[a] == i;
        assert done[a] <= p.caps[a];
      } else {
        CapPositive(cs[i], bankroll);
      }
    }
    forall i | 0 <= i < |cs| ensures 0.0 <= r.stakes[i] <= Max(0.0, cs[i].cap) {
      StakeBound(r.fractions[i], cs[i], bankroll);
    }
  }

  /** Whatever happens, with no loss above the stake wealth keeps at least 1 - budget. */
  lemma WealthFloor(cs: seq<Candidate>, bankroll: real, maxTotal: real, r: KellyResult, outcome: seq<real>)
    requires Bounded(cs, bankroll, maxTotal, r) && |outcome| == |cs|
    requires forall i | 0 <= i < |outcome| :: outcome[i] >= -1.0
    ensures 1.0 + Apply(outcome, r.fractions, |cs|) >= 1.0 - Budget(maxTotal) >= 0.0
  {
    LossBound(r.fractions, outcome, |cs|);
  }
}
