/**
 What joint sizing decides, in the candidates' own numbers (app/portfolio.py, solve_joint_kelly): the
 fraction of a single bet, which candidates are considered, the allocations they may be given, and the
 steps from the solver's point to the fractions handed back.
 */
module KellyMeaning {
  import opened Barrier
  import opened JointKelly
  import opened Options
  import opened RealSums
  import opened ScenarioLaw
  import opened Scenarios

  // ---- the single bet --------------------------------------------------------------------

  lemma RawKellyIs(prob: real, price: real, raw: real)
    requires 0.0 < price < 1.0 && raw == (prob - price) / (1.0 - price)
    ensures RawKelly(prob, PayoffIfWin(price)) == raw
  {
    PayoffPositive(price);
    PayoffBuysShares(price);
    var payoff := PayoffIfWin(price);
    hide PayoffIfWin, RawKelly;
    var kelly := RawKelly(prob, payoff);
    RawKellyEquation(prob, payoff, kelly);
    Quotient(prob - price, 1.0 - price, raw);
    KellyAlgebra(prob, price, payoff, kelly);
    SameFactor(kelly, raw, 1.0 - price);
  }

  lemma KellyAlgebra(prob: real, price: real, payoff: real, kelly: real)
    requires (1.0 + payoff) * price == 1.0 && kelly * payoff == prob * (payoff + 1.0) - 1.0
    ensures kelly * (1.0 - price) == prob - price
  {
    assert payoff * price == 1.0 - price;
    assert kelly * (payoff * price) == (kelly * payoff) * price;
    assert (prob * (payoff + 1.0) - 1.0) * price == prob * ((1.0 + payoff) * price) - price;
  }

  /** v is the least of a, b and c. */
  predicate Least(v: real, a: real, b: real, c: real) {
    v <= a && v <= b && v <= c && (v == a || v == b || v == c)
  }

  /**
   A single bet stakes the multiplier's share of the edge over the price left, cut by the cap and the budget;
   so nothing at a fair price, and something exactly when the model's probability is above the price.
   */
  lemma SingleBetFraction(prob: real, price: real, multiplier: real, cap: real, budget: real)
    requires 0.0 < price < 1.0 && multiplier >= 0.0 && cap >= 0.0 && budget >= 0.0
    ensures var f, edge := SingleBet(prob, PayoffIfWin(price), multiplier, cap, budget), (prob - price) / (1.0 - price);
      && Least(f, if prob <= price then 0.0 else edge * multiplier, cap, budget)
      && (f > 0.0 <==> prob > price && multiplier > 0.0 && cap > 0.0 && budget > 0.0)
  {
    var edge := (prob - price) / (1.0 - price);
    Quotient(prob - price, 1.0 - price, edge);
    RawKellyIs(prob, price, edge);
    hide RawKelly, PayoffIfWin;
    EdgeSign(edge, 1.0 - price);
    if prob > price && multiplier > 0.0 { ProductPositive(edge, multiplier, edge * multiplier); }
  }

  lemma EdgeSign(edge: real, rest: real)
    requires rest > 0.0
    ensures (edge > 0.0 <==> edge * rest > 0.0) && (edge < 0.0 <==> edge * rest < 0.0)
  {
    if edge > 0.0 { MulStrict(edge, 0.0, rest); } else if edge < 0.0 { MulStrict(0.0, edge, rest); }
  }

  /** Without a price at which winning pays nothing is staked. */
  lemma UnpricedBet(prob: real, price: real, multiplier: real, cap: real, budget: real)
    requires !(0.0 < price < 1.0) && cap >= 0.0 && budget >= 0.0
    ensures SingleBet(prob, PayoffIfWin(price), multiplier, cap, budget) == 0.0
  {
  }

  /** The stake of a single bet, in the caller's numbers. */
  lemma SingleStake(c: Candidate, bankroll: real, multiplier: real, maxTotal: real, epsilon: real,
                    r: KellyResult, iterate: seq<real>, t: real)
    requires Answers([c], bankroll, multiplier, maxTotal, epsilon, r, iterate, t)
    requires bankroll > 0.0 && multiplier >= 0.0 && c.cap >= 0.0 && 0.0 <= maxTotal <= 1.0 && 0.0 < c.price < 1.0
    ensures |r.fractions| == |r.stakes| == 1 && r.stakes[0] == r.fractions[0] * bankroll
    ensures var edge := (c.prob - c.price) / (1.0 - c.price);
      Least(r.fractions[0], if c.prob <= c.price then 0.0 else edge * multiplier, c.cap / bankroll, maxTotal)
  {
    hide SingleBet, PayoffIfWin, AllZero, SumTo, ProblemOf, AtomProduct;
    AnswersBounded([c], bankroll, multiplier, maxTotal, epsilon, r, iterate, t);
    CapPositive(c, bankroll);
    SingleBetFraction(c.prob, c.price, multiplier, c.cap / bankroll, maxTotal);
    TimesMeaning(r.fractions[0], bankroll);
  }

  // ---- the book --------------------------------------------------------------------------

  /** A candidate is considered exactly when it has a cap and a price at which winning pays. */
  lemma StakeableExactly(c: Candidate)
    ensures Stakeable(c) <==> c.cap > 0.0 && 0.0 < c.price < 1.0
  {
    if 0.0 < c.price < 1.0 { PayoffPositive(c.price); }
  }

  lemma {:induction false} ActiveExactly(cs: seq<Candidate>, k: nat, i: nat)
    requires k <= |cs| && i < k
    ensures i in Active(cs, k) <==> cs[i].cap > 0.0 && 0.0 < cs[i].price < 1.0
  {
    hide Stakeable;
    StakeableExactly(cs[k - 1]);
    if i < k - 1 {
      ActiveExactly(cs, k - 1, i);
      hide Stakeable;
    }
  }

  /** What fractional Kelly asks for: the multiplier's share of the solver's point, at most the cap. */
  function Asked(x: seq<real>, multiplier: real, caps: seq<real>): (r: seq<real>)
    requires |x| == |caps|
    ensures |r| == |x|
    ensures forall i | 0 <= i < |x| ::
              r[i] == if multiplier * x[i] < caps[i] then multiplier * x[i] else caps[i]
  {
    seq(|x|, i requires 0 <= i < |x| => if multiplier * x[i] < caps[i] then multiplier * x[i] else caps[i])
  }

  lemma AskedIsShrunk(x: seq<real>, multiplier: real, caps: seq<real>)
    requires |x| == |caps| && multiplier >= 0.0 && forall i | 0 <= i < |x| :: x[i] >= 0.0 && caps[i] >= 0.0
    ensures Shrunk(x, multiplier, caps) == Asked(x, multiplier, caps)
    ensures forall i | 0 <= i < |x| :: Asked(x, multiplier, caps)[i] >= 0.0
  {
    forall i | 0 <= i < |x|
      ensures Shrunk(x, multiplier, caps)[i] == Asked(x, multiplier, caps)[i] >= 0.0
    {
      AskedEntry(x[i], multiplier, caps[i], Asked(x, multiplier, caps)[i]);
    }
  }

  lemma AskedEntry(v: real, multiplier: real, cap: real, asked: real)
    requires v >= 0.0 && multiplier >= 0.0 && cap >= 0.0
    requires asked == if multiplier * v < cap then multiplier * v else cap
    ensures Shrink(v, multiplier, cap) == asked >= 0.0
  {
    MulMono(multiplier, 0.0, v);
  }

  /**
   From the solver's point to the fractions: if what is asked for exceeds the budget, all of it is scaled by
   one factor to exactly the budget; then what is below a millionth is dropped and the rest is kept.
   */
  lemma FinishedMeaning(x: seq<real>, multiplier: real, caps: seq<real>, budget: real)
    returns (c: real, scaled: seq<real>)
    requires |x| == |caps| && multiplier >= 0.0 && budget > 0.0
    requires forall i | 0 <= i < |x| :: x[i] >= 0.0 && caps[i] >= 0.0
    ensures |scaled| == |x| && forall i | 0 <= i < |x| :: scaled[i] == Times(Asked(x, multiplier, caps)[i], c)
    ensures var total := SumTo(Asked(x, multiplier, caps), |x|);
      if total <= budget then c == 1.0 else 0.0 < c < 1.0 && SumTo(scaled, |x|) == budget
    ensures forall i | 0 <= i < |x| ::
      Finished(x, multiplier, caps, budget)[i] == if scaled[i] < 0.000001 then 0.0 else scaled[i]
  {
    hide SumTo, Times, Rescale, Shrunk, Asked;
    AskedIsShrunk(x, multiplier, caps);
    var asked := Asked(x, multiplier, caps);
    var total := SumTo(asked, |x|);
    if total > budget {
      c := budget / total;
      scaled := Rescaled(asked, budget, total);
      forall i | 0 <= i < |x| ensures scaled[i] == Times(asked[i], c) { RescaledEntry(asked[i], budget, total, c); }
      RescaledSum(asked, budget, total, c, |x|);
      FactorBelowOne(budget, total, c);
    } else {
      c, scaled := 1.0, asked;
      forall i | 0 <= i < |x| ensures scaled[i] == Times(asked[i], c) { TimesFacts(asked[i], 0.0, 0.0); }
    }
  }

  lemma FactorBelowOne(budget: real, total: real, c: real)
    requires 0.0 < budget < total && c == budget / total
    ensures 0.0 < c < 1.0 && Times(total, c) == budget
  {
    Quotient(budget, total, c);
    if c <= 0.0 { MulMono(0.0, c, total); }
    if c >= 1.0 { MulMono(c, 1.0, total); }
  }

  /**
   The allocations among which the solver chooses: each candidate's fraction costs at most its cap, together
   they stay within the total, and what a scenario leaves stays at or above the solvency margin.
   */
  lemma AdmissibleMeaning(cs: seq<Candidate>, bankroll: real, maxTotal: real, epsilon: real, y: seq<real>)
    requires bankroll > 0.0 && |y| == |Active(cs, |cs|)|
    ensures var p, active := ProblemOf(Chosen(cs), bankroll, Budget(maxTotal), epsilon), Active(cs, |cs|);
      && WellFormed(p) && |p.caps| == |y|
      && (Admissible(p, y) <==>
            && (forall a | 0 <= a < |y| :: 0.0 <= y[a] && y[a] * bankroll <= cs[active[a]].cap)
            && SumTo(y, |y|) <= (if maxTotal < 0.0 then 0.0 else if maxTotal > 1.0 then 1.0 else maxTotal)
            && forall s | s in ScenariosOf(Chosen(cs)) ::
                 && |s.profits| == |y|
                 && 1.0 + Apply(s.profits, y, |y|) >= epsilon && 1.0 + Apply(s.profits, y, |y|) > 0.0)
  {
    hide Stakeable, Active, Chosen, ScenariosOf, Apply, SumTo, CapFraction;
    var chosen, active, budget := Chosen(cs), Active(cs, |cs|), Budget(maxTotal);
    forall i | 0 <= i < |chosen| ensures Stakeable(chosen[i]) { assert chosen[i] == cs[active[i]]; }
    ProblemWellFormed(chosen, bankroll, budget, epsilon);
    var p, scenarios := ProblemOf(chosen, bankroll, budget, epsilon), ScenariosOf(chosen);
    forall a | 0 <= a < |y| ensures y[a] <= p.caps[a] <==> y[a] * bankroll <= cs[active[a]].cap {
      StakeableExactly(chosen[a]);
      CapMeaning(chosen[a], bankroll, y[a]);
    }
    forall k | 0 <= k < |p.probs|
      ensures |scenarios[k].profits| == |y| && Wealth(p, k, y) == 1.0 + Apply(scenarios[k].profits, y, |y|)
    {
      assert p.profits[k] == scenarios[k].profits;
    }
    assert forall k | 0 <= k < |scenarios| :: scenarios[k] in scenarios;
    forall s | s in scenarios ensures |s.profits| == |y| {
      var k :| 0 <= k < |scenarios| && scenarios[k] == s;
      assert p.profits[k] == s.profits;
    }
  }

  lemma CapMeaning(c: Candidate, bankroll: real, f: real)
    requires bankroll > 0.0 && c.cap > 0.0
    ensures f <= CapFraction(c, bankroll) <==> f * bankroll <= c.cap
  {
    CapPositive(c, bankroll);
    if f <= CapFraction(c, bankroll) {
      MulMono(CapFraction(c, bankroll), f, bankroll);
    } else {
      MulStrict(f, CapFraction(c, bankroll), bankroll);
    }
  }
}
