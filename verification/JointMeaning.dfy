/**
 Which signals an account sizes jointly and what they may be given (app/accounts.py, _joint_stakes), in the
 account's and the signals' own numbers.
 */
module JointMeaning {
  import opened Accounts
  import opened Entry
  import opened JointKelly
  import opened JointSizing
  import opened KellyMeaning
  import opened Options
  import opened Placement
  import opened RealSums
  import Scenarios

  /** x dollars are within the account's own sizing of the signal and within every cap but the group's. */
  predicate WithinCaps(t: Strategy, s: Signal, run: Running, x: real) {
    var equity := run.bankroll + run.total;
    && Entry.Sized(t, s, run.bankroll, x)
    && run.event + x <= t.eventPct * equity && run.sport + x <= t.sportPct * equity
    && run.total + x <= t.totalPct * equity
  }

  /** A candidate's cap is the largest amount within the sizing and the caps, or nothing. */
  lemma JointCapMeaning(t: Strategy, s: Signal, run: Running, x: real)
    requires x > 0.0
    ensures x <= JointCap(t, s, run) <==> WithinCaps(t, s, run, x)
  {
    hide StakeFor, Room, Entry.Sized;
    var equity := run.bankroll + run.total;
    StakeForMeaning(t, s, run.bankroll, x);
    RoomMeaning(t.eventPct, equity, run.event, x);
    RoomMeaning(t.sportPct, equity, run.sport, x);
    RoomMeaning(t.totalPct, equity, run.total, x);
  }

  /** The model's probability of the outcome, or else the odds' own. */
  predicate Estimate(r: Request, s: Signal, prob: real) {
    if s.token in r.probs then prob == r.probs[s.token] else s.prob == Some(prob)
  }

  /** The signal may be sized: it can be graded and quoted, pays and can lose, and some amount is allowed. */
  ghost predicate Sizes(t: Strategy, r: Request, s: Signal, run: Running) {
    && s.token != "" && s.gradeable && s.token in r.quotes && t.name !in s.barred
    && s.price > 0.0 && s.price < 1.0
    && (exists prob :: Estimate(r, s, prob) && prob > 0.0 && prob < 1.0)
    && exists x :: x > 0.0 && WithinCaps(t, s, run, x)
  }

  lemma SizableMeaning(t: Strategy, r: Request, s: Signal, run: Running)
    ensures Sizable(t, r, s, run) <==> Sizes(t, r, s, run)
    ensures Sizable(t, r, s, run) ==> var c := CandidateOf(t, r, s, run);
      && Estimate(r, s, c.prob) && c.price == s.price && c.group == s.group && c.cap > 0.0
      && WithinCaps(t, s, run, c.cap) && forall x | x > c.cap :: !WithinCaps(t, s, run, x)
  {
    hide JointCap, WithinCaps;
    forall x | x > 0.0 ensures x <= JointCap(t, s, run) <==> WithinCaps(t, s, run, x) { JointCapMeaning(t, s, run, x); }
    if JointCap(t, s, run) > 0.0 { assert WithinCaps(t, s, run, JointCap(t, s, run)); }
    if s.token in r.probs || s.prob.Some? {
      var prob := if s.token in r.probs then r.probs[s.token] else s.prob.value;
      assert Estimate(r, s, prob) && DecisionProb(r, s) == Some(prob);
    }
  }

  /**
   The joint stakes of a call: a token is given one exactly when a signal of it may be sized; what it gets is
   within that signal's sizing and caps; and distinct tokens get at most the total share of the bankroll.
   */
  lemma StakesMeaning(t: Strategy, r: Request, signals: seq<Signal>, run: Running, stakes: map<string, real>)
    requires JointlyBounded(t, r, signals, run, stakes)
    ensures forall token :: token in stakes <==> exists s :: s in signals && s.token == token && Sizes(t, r, s, run)
    ensures forall token | token in stakes :: stakes[token] >= 0.0 && (stakes[token] > 0.0 ==>
              exists s :: s in signals && s.token == token && Sizes(t, r, s, run)
                          && WithinCaps(t, s, run, stakes[token]))
    ensures forall a, b | a in stakes && b in stakes && a != b :: stakes[a] + stakes[b]
              <= Times(Budget(t.totalPct), if run.bankroll > 0.0 then run.bankroll else 0.0)
  {
    hide Sizable, Sizes, JointCap, WithinCaps, Times, Budget;
    forall s: Signal ensures Sizable(t, r, s, run) <==> Sizes(t, r, s, run) { SizableMeaning(t, r, s, run); }
    forall token | token in stakes ensures stakes[token] >= 0.0 && (stakes[token] > 0.0 ==>
              exists s :: s in signals && s.token == token && Sizes(t, r, s, run)
                          && WithinCaps(t, s, run, stakes[token]))
    {
      var s :| s in signals && Sizable(t, r, s, run) && s.token == token && 0.0 <= stakes[token] <= JointCap(t, s, run);
      if stakes[token] > 0.0 { JointCapMeaning(t, s, run, stakes[token]); }
    }
    forall a, b | a in stakes && b in stakes && a != b
      ensures stakes[a] + stakes[b] <= Times(Budget(t.totalPct), if run.bankroll > 0.0 then run.bankroll else 0.0)
    {
      PairStaked(stakes, a, b);
    }
  }

  lemma PairStaked(stakes: map<string, real>, a: string, b: string)
    requires a in stakes && b in stakes && a != b
    ensures forall i | 0 <= i < |[a, b]| :: [a, b][i] in stakes
    ensures Staked(stakes, [a, b]) == stakes[a] + stakes[b]
  {
    assert Staked(stakes, [a]) == stakes[a] by { assert [a][..0] == []; }
    assert [a, b][..1] == [a];
  }

  /** The multiplier's share of the edge over the price left, cut by the cap's share of the bankroll and the total. */
  predicate KellyShare(f: real, prob: real, price: real, multiplier: real, cap: real, bankroll: real, total: real)
    requires price < 1.0 && bankroll > 0.0
  {
    var edge := (prob - price) / (1.0 - price);
    Least(f, if prob <= price then 0.0 else edge * multiplier, cap / bankroll, total)
  }

  lemma LoneCandidate(c: Scenarios.Candidate, bankroll: real, multiplier: real, total: real, k: KellyResult,
                      iterate: seq<real>, weight: real)
    requires Answers([c], bankroll, multiplier, total, SOLVENCY_EPSILON, k, iterate, weight)
    requires bankroll > 0.0 && multiplier >= 0.0 && c.cap >= 0.0 && 0.0 <= total <= 1.0 && 0.0 < c.price < 1.0
    ensures |k.fractions| == |k.stakes| == 1 && k.stakes[0] == Times(k.fractions[0], bankroll)
    ensures KellyShare(k.fractions[0], c.prob, c.price, multiplier, c.cap, bankroll, total)
  {
    hide Answers;
    SingleStake(c, bankroll, multiplier, total, SOLVENCY_EPSILON, k, iterate, weight);
    TimesMeaning(k.fractions[0], bankroll);
  }

  lemma DictOne(tokens: seq<string>, values: seq<real>)
    requires |tokens| == |values| == 1
    ensures tokens[0] in Dict(tokens, values) && Dict(tokens, values)[tokens[0]] == values[0]
  {
  }

  lemma LoneList(t: Strategy, r: Request, from: seq<Signal>, run: Running, tokens: seq<string>,
                 cs: seq<Scenarios.Candidate>, s: Signal)
    requires from == [s] && ListedFrom(t, r, from, run, tokens, cs)
    ensures Sizable(t, r, s, run) && tokens == [s.token] && cs == [CandidateOf(t, r, s, run)]
  {
    hide Sizable, CandidateOf;
    assert from[0] == s;
  }

  /** The only signal that may be sized is given the single-bet stake. */
  lemma LoneStake(t: Strategy, r: Request, signals: seq<Signal>, run: Running, stakes: map<string, real>, s: Signal)
    returns (prob: real, cap: real, fraction: real)
    requires Optimised(t, r, signals, run, stakes) && JointSizing.Sized(t, r, signals, run) == [s]
    requires run.bankroll > 0.0 && t.kellyMultiplier >= 0.0 && 0.0 <= t.totalPct <= 1.0
    ensures Sizes(t, r, s, run) && Estimate(r, s, prob)
    ensures WithinCaps(t, s, run, cap) && forall x | x > cap :: !WithinCaps(t, s, run, x)
    ensures s.token in stakes && stakes[s.token] == Times(fraction, run.bankroll)
    ensures s.price < 1.0 && KellyShare(fraction, prob, s.price, t.kellyMultiplier, cap, run.bankroll, t.totalPct)
  {
    hide Answers, KellyShare, WithinCaps, Estimate, CandidateOf, Sizable, Entry.Sized, JointSizing.Sized;
    hide Dict, ListedFrom, Times;
    var tokens, cs, k, iterate, weight :|
      && ListedFrom(t, r, JointSizing.Sized(t, r, signals, run), run, tokens, cs)
      && Answers(cs, run.bankroll, t.kellyMultiplier, t.totalPct, SOLVENCY_EPSILON, k, iterate, weight)
      && |k.stakes| == |tokens| && stakes == Dict(tokens, k.stakes);
    LoneList(t, r, JointSizing.Sized(t, r, signals, run), run, tokens, cs, s);
    SizableMeaning(t, r, s, run);
    var c := CandidateOf(t, r, s, run);
    DictOne(tokens, k.stakes);
    LoneCandidate(c, run.bankroll, t.kellyMultiplier, t.totalPct, k, iterate, weight);
    prob, cap, fraction := c.prob, c.cap, k.fractions[0];
  }
}
