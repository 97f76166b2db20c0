/**
 The account store (app/accounts.py, AccountBook). The two tables are fields that the methods
 update; each method is one transaction and ends in the state its value-level operation gives.
 */
module AccountStore {
  import opened AccountRuns
  import opened Accounts
  import opened Barrier
  import opened Execution
  import opened JointKelly
  import opened JointSizing
  import opened Options
  import opened Placement
  import opened RealSums
  import opened Sale
  import Scenarios

  class AccountBook {
    var accounts: seq<Account>
    var bets: seq<Bet>

    ghost function State(): Book
      reads this
    {
      Book(accounts, bets)
    }

    constructor ()
      ensures State() == Book([], [])
    {
      accounts, bets := [], [];
    }

    method SeedAccounts(strategies: seq<Strategy>)
      modifies this
      ensures State() == Seed(old(State()), strategies)
    {
      for i := 0 to |strategies|
        invariant State() == Seed(old(State()), strategies[..i])
      {
        assert strategies[..i + 1][..i] == strategies[..i];
        var t := strategies[i];
        var a := FindAccount(accounts, t.name);
        if a.None? {
          accounts := accounts + [NewAccount(t, false)];
        } else {
          accounts := accounts[a.value := accounts[a.value].(strategy := t, active := true)];
        }
      }
      assert strategies[..|strategies|] == strategies;
    }

    method CreateCustom(t: Strategy) returns (created: bool)
      modifies this
      ensures State() == Create(old(State()), t)
      ensures created <==> FindAccount(old(accounts), t.name).None?
    {
      var a := FindAccount(accounts, t.name);
      created := a.None?;
      if created { accounts := accounts + [NewAccount(t, true)]; }
    }

    /** Applies the collected row updates, then the credits account by account. */
    method ApplyClosings(cl: seq<Option<Closing>>)
      requires |cl| == |bets|
      modifies this
      ensures State() == CloseBets(old(State()), cl)
    {
      ghost var k := State();
      var credits: map<string, real> := map[];
      var rows: seq<Bet> := [];
      for i := 0 to |bets|
        invariant State() == k && |rows| == i
        invariant forall j | 0 <= j < i :: rows[j] == Closed(bets[j], cl[j])
        invariant forall name: string ::
          CreditTo(bets, cl, name, i) == if name in credits then credits[name] else 0.0
      {
        rows := rows + [Closed(bets[i], cl[i])];
        if cl[i].Some? {
          var name, before := bets[i].account, 0.0;
          if name in credits { before := credits[name]; }
          credits := credits[name := before + cl[i].value.payout];
        }
      }
      var updated: seq<Account> := [];
      for a := 0 to |accounts|
        invariant State() == k && |updated| == a
        invariant forall j | 0 <= j < a ::
          updated[j] == accounts[j].(bankroll := accounts[j].bankroll + CreditTo(bets, cl, accounts[j].name, |bets|))
      {
        var c := accounts[a];
        if c.name in credits { c := c.(bankroll := c.bankroll + credits[c.name]); }
        updated := updated + [c];
      }
      assert updated == CreditRows(accounts, bets, cl) && rows == CloseRows(bets, cl);
      accounts, bets := updated, rows;
    }

    method Settle(f: Final) returns (settled: nat)
      modifies this
      ensures State() == Step(old(State()), SettleOp(f))
      ensures settled == OpenCount(old(bets), f.event, |old(bets)|)
    {
      var cl: seq<Option<Closing>> := [];
      settled := 0;
      for i := 0 to |bets|
        invariant |cl| == i && State() == old(State())
        invariant forall j | 0 <= j < i :: cl[j] == SettleOne(f, bets[j])
        invariant settled == OpenCount(bets, f.event, i)
      {
        var b := bets[i];
        if b.event == f.event && b.status.Open? {
          var verdict := Verdict(f, b);
          cl := cl + [Some(Closing(verdict, Payout(verdict, b.stake, b.shares)))];
          settled := settled + 1;
        } else {
          cl := cl + [None];
        }
      }
      assert cl == SettleClosings(f, bets);
      ApplyClosings(cl);
    }

    method VoidEvent(event: string) returns (voided: nat)
      modifies this
      ensures State() == Step(old(State()), VoidOp(event))
      ensures voided == OpenCount(old(bets), event, |old(bets)|)
    {
      var cl: seq<Option<Closing>> := [];
      voided := 0;
      for i := 0 to |bets|
        invariant |cl| == i && State() == old(State())
        invariant forall j | 0 <= j < i :: cl[j] == VoidOne(event, bets[j])
        invariant voided == OpenCount(bets, event, i)
      {
        if bets[i].event == event && bets[i].status.Open? {
          cl := cl + [Some(Closing(Void, bets[i].stake))];
          voided := voided + 1;
        } else {
          cl := cl + [None];
        }
      }
      assert cl == VoidClosings(event, bets);
      ApplyClosings(cl);
    }

    /** Marks one row with an executable sale. */
    method MarkOne(a: Account, b: Bet, q: Option<Quote>, prob: Option<real>, now: real) returns (m: Mark)
      ensures m == MarkRow(a, b, q, prob, now)
    {
      hide CashOutDecision, SellResult;
      if b.token == "" || q.None? || q.value.stale { return Marked(b.highWater, None); }
      var sale := SimulateSell(BookLevels(q.value.bids), OrderOn(q.value, b.shares));
      if sale.Raised? { return SaleRaised; }
      var s := sale.value;
      if !s.complete || s.effective.None? { return Marked(b.highWater, None); }
      var pnl := s.net - b.stake;
      var before := if b.highWater.Some? then b.highWater.value else pnl;
      var exit := a.cashOut && CashOutDecision(a.strategy.exits, b, s.net, s.effective.value, prob, now, before);
      m := Marked(Some(Max(before, pnl)), if exit then Some(s.net) else None);
    }

    /** One transaction: marks every open bet of the event, then closes those to be cashed out. */
    method MarkAndExit(p: Prices) returns (raised: bool)
      modifies this
      ensures State() == Step(old(State()), CashOutOp(p))
      ensures raised <==> MarksRaise(old(State()), p)
    {
      hide MarkRow;
      ghost var k := State();
      var marked: seq<Bet> := [];
      var cl: seq<Option<Closing>> := [];
      for i := 0 to |bets|
        invariant State() == k && |marked| == |cl| == i
        invariant forall j | 0 <= j < i :: !MarkOf(k, p, bets[j]).SaleRaised?
        invariant forall j | 0 <= j < i :: marked[j] == MarkBet(MarkOf(k, p, bets[j]), bets[j])
        invariant forall j | 0 <= j < i :: cl[j] == ExitClosing(MarkOf(k, p, bets[j]))
      {
        var b := bets[i];
        var m := Marked(b.highWater, None);
        var a := FindAccount(accounts, b.account);
        if b.event == p.event && b.status.Open? && a.Some? {
          m := MarkOne(accounts[a.value], b, OptionalQuote(p, b.token), OptionalProb(p, b.token), p.now);
        }
        assert m == MarkOf(k, p, b);
        if m.SaleRaised? { return true; }
        marked := marked + [MarkBet(m, b)];
        cl := cl + [ExitClosing(m)];
      }
      assert marked == MarkBets(k, p) && cl == ExitClosings(k, p);
      bets := marked;
      ApplyClosings(cl);
      raised := false;
    }

    /** The bet a signal leads to, found with a simulated buy. */
    method Plan(t: Strategy, account: string, r: Request, s: Signal, base: real, run: Running,
                groupOpen: real, equity: real) returns (b: Option<Bet>)
      ensures b == PlannedBet(t, account, r, s, base, run, groupOpen, equity)
    {
      hide Times, Clears, BuyResult, Requested;
      if !Tradeable(t, r, s) { return None; }
      var stake, q := Requested(t, base, run, groupOpen, equity), r.quotes[s.token];
      if stake < 1.0 { return None; }
      var fill := SimulateBuy(BookLevels(q.asks), OrderOn(q, stake));
      if fill.Raised? { return None; }
      var e := fill.value;
      if !e.complete || e.effective.None? || !Clears(t, r, s, e.effective.value) { return None; }
      b := Some(Bet(account, r.event, s.market, s.outcome, r.sport, s.group, s.token, e.filledCash, e.shares,
                    e.effective.value, r.now, Open, None, None));
    }

    /** Joint-Kelly stakes of the account's sizable signals, by token. */
    method JointStakes(t: Strategy, r: Request, signals: seq<Signal>, run: Running, log: Log)
      returns (stakes: map<string, real>)
      requires OnPositives(log)
      ensures JointlyBounded(t, r, signals, run, stakes) && Optimised(t, r, signals, run, stakes)
    {
      hide Sizable, JointCap, DecisionProb, Budget, JointlyBounded, Bounded, AllZero, ListedFrom, Sized, Answers;
      ListedNone(t, r, run);
      var candidates: seq<Scenarios.Candidate> := [];
      var tokens: seq<string> := [];
      for i := 0 to |signals|
        invariant ListedFrom(t, r, Sized(t, r, signals[..i], run), run, tokens, candidates)
      {
        var s := signals[i];
        assert signals[..i + 1] == signals[..i] + [s];
        ListedNext(t, r, signals[..i], run, tokens, candidates, s);
        if Sizable(t, r, s, run) {
          candidates := candidates + [CandidateOf(t, r, s, run)];
          tokens := tokens + [s.token];
        }
      }
      assert signals[..|signals|] == signals;
      var solved, iterate, weight :=
        SolveJointKelly(candidates, run.bankroll, t.kellyMultiplier, t.totalPct, SOLVENCY_EPSILON, log);
      AnswersBounded(candidates, run.bankroll, t.kellyMultiplier, t.totalPct, SOLVENCY_EPSILON,
                     solved, iterate, weight);
      DictBounded(t, r, signals, run, tokens, candidates, solved);
      stakes := Dict(tokens, solved.stakes);
    }

    /** Serves one signal, updating the tables and the running totals. */
    method ServeSignal(a: nat, r: Request, s: Signal, equity: real, o: Overrides, run: Running) returns (next: Running)
      requires a < |accounts|
      modifies this
      ensures (State(), next) == PlaceSignal(old(State()), a, run, r, s, equity, o)
    {
      hide PlannedBet, StakeFor;
      var c := accounts[a];
      var base := BaseStake(c.strategy, s, run.bankroll, o);
      var b := Plan(c.strategy, c.name, r, s, base, run, Exposure(bets, c.name, ByGroup(s.group)), equity);
      next := run;
      if b.None? || Taken(bets, b.value) { return; }
      var stake := b.value.stake;
      next := Running(run.bankroll - stake, run.total + stake, run.event + stake, run.sport + stake);
      bets := bets + [b.value];
      accounts := accounts[a := c.(bankroll := next.bankroll)];
    }

    /** One call of place: all active accounts, each over its candidate signals. */
    method PlaceBets(r: Request, portfolioKelly: bool, log: Log) returns (ghost o: seq<Overrides>)
      requires OnPositives(log)
      modifies this
      ensures |o| == |old(accounts)| && (!portfolioKelly ==> forall a | 0 <= a < |o| :: o[a].None?)
      ensures portfolioKelly ==> forall a | 0 <= a < |o| :: ServedJointly(old(State()), r, o, a)
      ensures State() == Step(old(State()), PlaceOp(r, o))
    {
      hide PlaceSignal, Opening, Candidates, ServedJointly, JointlyBounded, Optimised;
      ghost var k := State();
      var n := |accounts|;
      var signals := Candidates(r, r.signals);
      o := [];
      for a := 0 to n
        invariant |o| == a && |accounts| == n && State() == PlaceTo(k, r, o, a)
        invariant !portfolioKelly ==> forall i | 0 <= i < a :: o[i].None?
        invariant portfolioKelly ==> forall i | 0 <= i < a :: ServedJointly(k, r, o, i)
      {
        ghost var before := State();
        var c := accounts[a];
        var overrides: Overrides := None;
        if c.active && c.strategy.name !in r.barred {
          var run := Opening(Book(accounts, bets), a, r);
          var equity := run.bankroll + run.total;
          if portfolioKelly {
            var stakes := JointStakes(c.strategy, r, signals, run, log);
            overrides := Some(stakes);
          }
          ghost var start := run;
          for i := 0 to |signals|
            invariant |accounts| == n
            invariant (State(), run) == PlaceSignals(before, a, start, r, signals[..i], equity, overrides)
          {
            assert signals[..i + 1][..i] == signals[..i];
            ghost var (served, mid) := PlaceSignals(before, a, start, r, signals[..i], equity, overrides);
            SignalRows(served, a, mid, r, signals[i], equity, overrides);
            run := ServeSignal(a, r, signals[i], equity, overrides, run);
          }
          assert signals[..|signals|] == signals;
        }
        assert State() == PlaceAccount(before, a, r, overrides);
        Extended(k, before, r, o, a, overrides, portfolioKelly);
        o := o + [overrides];
      }
    }

    /** One more override leaves what was said of the earlier accounts as it is. */
    lemma Extended(k: Book, before: Book, r: Request, o: seq<Overrides>, a: nat, next: Overrides, joint: bool)
      requires |o| == a < |k.accounts| && before == PlaceTo(k, r, o, a)
      requires joint ==> forall i | 0 <= i < a :: ServedJointly(k, r, o, i)
      requires var c := before.accounts[a];
        joint ==> if c.active && c.strategy.name !in r.barred
                  then next.Some?
                       && JointlyBounded(c.strategy, r, Candidates(r, r.signals), Opening(before, a, r), next.value)
                       && Optimised(c.strategy, r, Candidates(r, r.signals), Opening(before, a, r), next.value)
                  else next.None?
      ensures PlaceTo(k, r, o + [next], a + 1) == PlaceAccount(before, a, r, next)
      ensures joint ==> forall i | 0 <= i < a + 1 :: ServedJointly(k, r, o + [next], i)
    {
      hide PlaceAccount, JointlyBounded, Optimised, Opening, Candidates;
      PlaceToPrefix(k, r, o, [next], a);
      assert (o + [next])[a] == next;
      if joint {
        assert ServedJointly(k, r, o + [next], a);
        forall i | 0 <= i < a ensures ServedJointly(k, r, o + [next], i) {
          ServedPrefix(k, r, o, [next], i);
        }
      }
    }

    lemma SignalRows(k: Book, a: nat, run: Running, r: Request, s: Signal, equity: real, o: Overrides)
      requires a < |k.accounts|
      ensures |PlaceSignal(k, a, run, r, s, equity, o).0.accounts| == |k.accounts|
    {
    }
  }
}
