/**
 Sizing an account's signals jointly (app/accounts.py, _joint_stakes): which signals enter, the cap
 of each, and what the mapping from token to stake that comes back promises.
 */
module JointSizing {
  import opened Accounts
  import opened JointKelly
  import opened Options
  import opened Ordering
  import opened Placement
  import opened RealSums
  import Scenarios

  /** A candidate's own limit: its independent stake and the room of the event, the sport and the account. */
  function JointCap(t: Strategy, s: Signal, run: Running): real {
    var equity := run.bankroll + run.total;
    Min(Min(Min(StakeFor(t, s, run.bankroll), Room(t.eventPct, equity, run.event)),
            Room(t.sportPct, equity, run.sport)), Room(t.totalPct, equity, run.total))
  }

  function DecisionProb(r: Request, s: Signal): Option<real> {
    var model := ModelProb(r, s.token);
    if model.Some? then model else s.prob
  }

  /** Signals that are sized jointly. */
  predicate Sizable(t: Strategy, r: Request, s: Signal, run: Running) {
    var prob := DecisionProb(r, s);
    && s.token != "" && s.gradeable && s.token in r.quotes && t.name !in s.barred
    && prob.Some? && 0.0 < prob.value < 1.0 && 0.0 < s.price < 1.0 && JointCap(t, s, run) > 0.0
  }

  function CandidateOf(t: Strategy, r: Request, s: Signal, run: Running): Scenarios.Candidate
    requires Sizable(t, r, s, run)
  {
    Scenarios.Candidate(DecisionProb(r, s).value, s.price, s.group, JointCap(t, s, run))
  }

  function Sized(t: Strategy, r: Request, signals: seq<Signal>, run: Running): (c: seq<Signal>)
    ensures forall s :: s in c <==> s in signals && Sizable(t, r, s, run)
  {
    if signals == [] then []
    else
      var s := signals[|signals| - 1];
      assert signals == signals[..|signals| - 1] + [s];
      Sized(t, r, signals[..|signals| - 1], run) + (if Sizable(t, r, s, run) then [s] else [])
  }

  /** The default of the sizing's solvency margin. */
  const SOLVENCY_EPSILON: real := 0.000001

  /** The mapping a list of tokens and their stakes makes: a later entry replaces an earlier one. */
  function Dict(tokens: seq<string>, values: seq<real>): (d: map<string, real>)
    requires |tokens| == |values|
    ensures forall k :: k in d <==> k in tokens
    ensures forall k | k in d :: exists j :: 0 <= j < |tokens| && tokens[j] == k && d[k] == values[j]
  {
    if tokens == [] then map[]
    else
      var n := |tokens| - 1;
      assert tokens == tokens[..n] + [tokens[n]];
      Dict(tokens[..n], values[..n])[tokens[n] := values[n]]
  }

  /** What the listed tokens are given together. */
  function Staked(stakes: map<string, real>, tokens: seq<string>): real
    requires forall i | 0 <= i < |tokens| :: tokens[i] in stakes
  {
    if tokens == [] then 0.0
    else Staked(stakes, tokens[..|tokens| - 1]) + stakes[tokens[|tokens| - 1]]
  }

  function Without(tokens: seq<string>, j: nat): seq<string>
    requires j < |tokens|
  {
    tokens[..j] + tokens[j + 1..]
  }

  lemma {:induction false} StakedWithout(stakes: map<string, real>, tokens: seq<string>, j: nat)
    requires j < |tokens| && forall i | 0 <= i < |tokens| :: tokens[i] in stakes
    ensures forall k | k in Without(tokens, j) :: k in tokens
    ensures Staked(stakes, tokens) == Staked(stakes, Without(tokens, j)) + stakes[tokens[j]]
  {
    var n := |tokens| - 1;
    if j == n {
      assert Without(tokens, j) == tokens[..n];
    } else {
      StakedWithout(stakes, tokens[..n], j);
      assert Without(tokens, j)[..n - 1] == Without(tokens[..n], j);
    }
  }

  /** Entries of other tokens do not matter. */
  lemma {:induction false} StakedAgrees(a: map<string, real>, b: map<string, real>, tokens: seq<string>)
    requires forall i | 0 <= i < |tokens| :: tokens[i] in a && tokens[i] in b && a[tokens[i]] == b[tokens[i]]
    ensures Staked(a, tokens) == Staked(b, tokens)
  {
    if tokens != [] { StakedAgrees(a, b, tokens[..|tokens| - 1]); }
  }

  lemma DistinctWithout(listed: seq<string>, j: nat)
    requires Distinct(listed) && j < |listed|
    ensures Distinct(Without(listed, j)) && listed[j] !in Without(listed, j)
  {
  }

  lemma StakedNone(stakes: map<string, real>, listed: seq<string>)
    requires (forall k :: k !in stakes) && forall i | 0 <= i < |listed| :: listed[i] in stakes
    ensures Staked(stakes, listed) == 0.0
  {
  }

  lemma DictStep(tokens: seq<string>, values: seq<real>, n: nat)
    requires |tokens| == |values| == n + 1
    ensures Dict(tokens, values) == Dict(tokens[..n], values[..n])[tokens[n] := values[n]]
    ensures forall k :: k in tokens <==> k in tokens[..n] || k == tokens[n]
  {
    assert tokens == tokens[..n] + [tokens[n]];
  }

  /** Distinct tokens of a mapping are given at most the sum of the list it was made from. */
  lemma {:induction false} DictStaked(tokens: seq<string>, values: seq<real>, listed: seq<string>)
    requires |tokens| == |values| && forall i | 0 <= i < |values| :: values[i] >= 0.0
    requires Distinct(listed) && forall i | 0 <= i < |listed| :: listed[i] in tokens
    ensures Staked(Dict(tokens, values), listed) <= Sum(values)
    decreases |tokens|
  {
    hide Dict, Distinct, Without, Staked;
    if tokens == [] {
      StakedNone(Dict(tokens, values), listed);
    } else {
      var n := |tokens| - 1;
      DictStep(tokens, values, n);
      if j: nat :| j < |listed| && listed[j] == tokens[n] {
        var rest := Without(listed, j);
        StakedWithout(Dict(tokens, values), listed, j);
        DistinctWithout(listed, j);
        forall i | 0 <= i < |rest| ensures rest[i] in tokens[..n] { assert rest[i] in rest && rest[i] in listed; }
        StakedAgrees(Dict(tokens, values), Dict(tokens[..n], values[..n]), rest);
        DictStaked(tokens[..n], values[..n], rest);
      } else {
        StakedAgrees(Dict(tokens, values), Dict(tokens[..n], values[..n]), listed);
        DictStaked(tokens[..n], values[..n], listed);
      }
    }
  }

  /** Stakes are their fractions of the bankroll, so together at most the budget's share of it. */
  lemma {:induction false} DollarSum(stakes: seq<real>, fractions: seq<real>, bankroll: real, k: nat)
    requires |stakes| == |fractions| && k <= |stakes|
    requires forall i | 0 <= i < |stakes| :: stakes[i] == Times(fractions[i], bankroll)
    ensures SumTo(stakes, k) == Times(SumTo(fractions, k), bankroll)
  {
    if k > 0 {
      DollarSum(stakes, fractions, bankroll, k - 1);
      TimesFacts(SumTo(fractions, k - 1), fractions[k - 1], bankroll);
    }
  }

  lemma {:induction false} SumIsSumTo(x: seq<real>, k: nat)
    requires k <= |x|
    ensures Sum(x[..k]) == SumTo(x, k)
  {
    if k > 0 {
      assert x[..k][..k - 1] == x[..k - 1];
      SumIsSumTo(x, k - 1);
    }
  }

  lemma BudgetHolds(cs: seq<Scenarios.Candidate>, bankroll: real, maxTotal: real, k: KellyResult)
    requires Bounded(cs, bankroll, maxTotal, k) && (bankroll <= 0.0 ==> AllZero(k))
    ensures Sum(k.stakes) <= Times(Budget(maxTotal), Max(0.0, bankroll))
  {
    hide Budget, Stakeable, Sum, SumTo, Times;
    var n := |cs|;
    SumIsSumTo(k.stakes, n);
    assert k.stakes[..n] == k.stakes;
    if bankroll > 0.0 {
      DollarSum(k.stakes, k.fractions, bankroll, n);
      MulMono(Budget(maxTotal), SumTo(k.fractions, n), bankroll);
      TimesMeaning(Budget(maxTotal), bankroll);
      TimesMeaning(SumTo(k.fractions, n), bankroll);
    } else {
      assert k.stakes == Repeat(0.0, n);
      ZeroSum(n, n);
      TimesMeaning(Budget(maxTotal), 0.0);
    }
  }

  /**
   Exactly the sizable signals' tokens get a stake, each within the own cap of such a signal, and no
   set of tokens gets more than the budget's share of the bankroll.
   */
  ghost predicate JointlyBounded(t: Strategy, r: Request, signals: seq<Signal>, run: Running,
                                 stakes: map<string, real>)
  {
    && (forall s | s in signals && Sizable(t, r, s, run) :: s.token in stakes)
    && (forall token | token in stakes ::
          exists s :: s in signals && Sizable(t, r, s, run) && s.token == token
                      && 0.0 <= stakes[token] <= JointCap(t, s, run))
    && (forall listed: seq<string> | Distinct(listed) && (forall i | 0 <= i < |listed| :: listed[i] in stakes) ::
          Staked(stakes, listed) <= Times(Budget(t.totalPct), Max(0.0, run.bankroll)))
  }

  ghost predicate ListedFrom(t: Strategy, r: Request, from: seq<Signal>, run: Running, tokens: seq<string>,
                             cs: seq<Scenarios.Candidate>)
  {
    && |tokens| == |cs| == |from|
    && forall j | 0 <= j < |from| ::
         Sizable(t, r, from[j], run) && tokens[j] == from[j].token && cs[j] == CandidateOf(t, r, from[j], run)
  }

  /** The stakes are those of a solved sizing of the sizable signals, by token. */
  ghost predicate Optimised(t: Strategy, r: Request, signals: seq<Signal>, run: Running, stakes: map<string, real>) {
    exists tokens, cs, k, iterate, weight ::
      && ListedFrom(t, r, Sized(t, r, signals, run), run, tokens, cs)
      && Answers(cs, run.bankroll, t.kellyMultiplier, t.totalPct, SOLVENCY_EPSILON, k, iterate, weight)
      && |k.stakes| == |tokens| && stakes == Dict(tokens, k.stakes)
  }

  lemma ListedNone(t: Strategy, r: Request, run: Running)
    ensures ListedFrom(t, r, Sized(t, r, [], run), run, [], [])
  {
  }

  lemma SizedNext(t: Strategy, r: Request, signals: seq<Signal>, run: Running, s: Signal)
    ensures Sized(t, r, signals + [s], run) == Sized(t, r, signals, run) + (if Sizable(t, r, s, run) then [s] else [])
  {
    hide Sizable;
    assert (signals + [s])[..|signals|] == signals;
  }

  lemma ListedMore(t: Strategy, r: Request, from: seq<Signal>, run: Running, tokens: seq<string>,
                   cs: seq<Scenarios.Candidate>, s: Signal)
    requires ListedFrom(t, r, from, run, tokens, cs) && Sizable(t, r, s, run)
    ensures ListedFrom(t, r, from + [s], run, tokens + [s.token], cs + [CandidateOf(t, r, s, run)])
  {
    hide Sizable, CandidateOf;
  }

  lemma ListedNext(t: Strategy, r: Request, signals: seq<Signal>, run: Running, tokens: seq<string>,
                   cs: seq<Scenarios.Candidate>, s: Signal)
    requires ListedFrom(t, r, Sized(t, r, signals, run), run, tokens, cs)
    ensures var from := Sized(t, r, signals + [s], run);
      if Sizable(t, r, s, run) then ListedFrom(t, r, from, run, tokens + [s.token], cs + [CandidateOf(t, r, s, run)])
      else ListedFrom(t, r, from, run, tokens, cs)
  {
    hide Sizable, CandidateOf, ListedFrom, Sized;
    SizedNext(t, r, signals, run, s);
    if Sizable(t, r, s, run) {
      ListedMore(t, r, Sized(t, r, signals, run), run, tokens, cs, s);
    } else {
      assert Sized(t, r, signals + [s], run) == Sized(t, r, signals, run);
    }
  }

  lemma EntryWithinCap(t: Strategy, r: Request, from: seq<Signal>, run: Running, tokens: seq<string>,
                       cs: seq<Scenarios.Candidate>, k: KellyResult, token: string)
    requires ListedFrom(t, r, from, run, tokens, cs) && Bounded(cs, run.bankroll, t.totalPct, k)
    requires token in tokens
    ensures token in Dict(tokens, k.stakes)
    ensures exists j :: 0 <= j < |from| && from[j].token == token
                        && 0.0 <= Dict(tokens, k.stakes)[token] <= JointCap(t, from[j], run)
  {
    hide JointCap, DecisionProb, Budget, Stakeable, SumTo, Times;
    var d := Dict(tokens, k.stakes);
    var j :| 0 <= j < |tokens| && tokens[j] == token && d[token] == k.stakes[j];
    assert cs[j].cap == JointCap(t, from[j], run) > 0.0;
  }

  lemma ListWithinBudget(cs: seq<Scenarios.Candidate>, bankroll: real, maxTotal: real, k: KellyResult,
                         tokens: seq<string>, listed: seq<string>)
    requires Bounded(cs, bankroll, maxTotal, k) && (bankroll <= 0.0 ==> AllZero(k)) && |tokens| == |cs|
    requires Distinct(listed) && forall i | 0 <= i < |listed| :: listed[i] in Dict(tokens, k.stakes)
    ensures Staked(Dict(tokens, k.stakes), listed) <= Times(Budget(maxTotal), Max(0.0, bankroll))
  {
    hide Budget, AllZero, Staked, Sum, SumTo, Times, Stakeable;
    BudgetHolds(cs, bankroll, maxTotal, k);
    DictStaked(tokens, k.stakes, listed);
  }

  lemma StakesListed(t: Strategy, r: Request, from: seq<Signal>, run: Running, tokens: seq<string>,
                     cs: seq<Scenarios.Candidate>, k: KellyResult)
    requires ListedFrom(t, r, from, run, tokens, cs) && Bounded(cs, run.bankroll, t.totalPct, k)
    ensures |k.stakes| == |tokens| == |cs| && forall s | s in from :: s.token in Dict(tokens, k.stakes)
  {
    hide Sizable, JointCap, Budget, Max, SumTo, Times, Stakeable;
    forall s | s in from ensures s.token in tokens {
      var j :| 0 <= j < |from| && from[j] == s;
      assert tokens[j] == s.token;
    }
  }

  lemma DictBounded(t: Strategy, r: Request, signals: seq<Signal>, run: Running, tokens: seq<string>,
                    cs: seq<Scenarios.Candidate>, k: KellyResult)
    requires ListedFrom(t, r, Sized(t, r, signals, run), run, tokens, cs)
    requires Bounded(cs, run.bankroll, t.totalPct, k) && (run.bankroll <= 0.0 ==> AllZero(k))
    ensures |k.stakes| == |tokens| && JointlyBounded(t, r, signals, run, Dict(tokens, k.stakes))
  {
    hide Sizable, JointCap, Budget, AllZero, Staked, Times, Max, Dict, SumTo, Stakeable, Bounded, ListedFrom;
    var from := Sized(t, r, signals, run);
    StakesListed(t, r, from, run, tokens, cs, k);
    var d := Dict(tokens, k.stakes);
    forall token | token in d
      ensures exists s :: s in signals && Sizable(t, r, s, run) && s.token == token
                          && 0.0 <= d[token] <= JointCap(t, s, run)
    {
      EntryWithinCap(t, r, from, run, tokens, cs, k, token);
      var j :| 0 <= j < |from| && from[j].token == token && 0.0 <= d[token] <= JointCap(t, from[j], run);
      assert from[j] in from;
    }
    forall listed: seq<string> | Distinct(listed) && (forall i | 0 <= i < |listed| :: listed[i] in d)
      ensures Staked(d, listed) <= Times(Budget(t.totalPct), Max(0.0, run.bankroll))
    {
      ListWithinBudget(cs, run.bankroll, t.totalPct, k, tokens, listed);
    }
  }

  // ---- a whole call ----------------------------------------------------------------------

  /** Account a is given joint stakes sized on the tables it finds when it is served; one not served gets none. */
  ghost predicate ServedJointly(k: Book, r: Request, o: seq<Overrides>, a: nat)
    requires a < |k.accounts| && a < |o|
  {
    var before := PlaceTo(k, r, o, a);
    var c := before.accounts[a];
    if c.active && c.strategy.name !in r.barred
    then o[a].Some? && JointlyBounded(c.strategy, r, Candidates(r, r.signals), Opening(before, a, r), o[a].value)
         && Optimised(c.strategy, r, Candidates(r, r.signals), Opening(before, a, r), o[a].value)
    else o[a].None?
  }

  /** Serving the first n accounts depends on their overrides only. */
  lemma {:induction false} PlaceToPrefix(k: Book, r: Request, o: seq<Overrides>, more: seq<Overrides>, n: nat)
    requires n <= |k.accounts| && n <= |o|
    ensures PlaceTo(k, r, o + more, n) == PlaceTo(k, r, o, n)
  {
    hide PlaceAccount;
    if n > 0 {
      PlaceToPrefix(k, r, o, more, n - 1);
      assert (o + more)[n - 1] == o[n - 1];
    }
  }

  lemma ServedPrefix(k: Book, r: Request, o: seq<Overrides>, more: seq<Overrides>, a: nat)
    requires a < |k.accounts| && a < |o| && ServedJointly(k, r, o, a)
    ensures ServedJointly(k, r, o + more, a)
  {
    hide PlaceTo, JointlyBounded, Optimised, Opening, Candidates;
    PlaceToPrefix(k, r, o, more, a);
    assert (o + more)[a] == o[a];
  }
}
