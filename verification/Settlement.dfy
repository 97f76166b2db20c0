/**
 What a settlement, a void and a cash-out do to each bet and to each bankroll, in the bet's own numbers
 (app/accounts.py, grade, settle_event, void_event and mark_and_cash_out).
 */
module Settlement {
  import opened AccountRuns
  import opened Accounts
  import opened Options
  import opened RealSums
  import opened Sale

  // ---- who has won -----------------------------------------------------------------------

  /** Which side of a market the score decides for, market by market. */
  lemma GradeMeaning(line: Line, home: real, away: real, drawSport: bool)
    ensures line.Ungradeable? <==> Grade(line, home, away, drawSport).None?
    ensures !line.Ungradeable? ==> Grade(line, home, away, drawSport).value in {Win, Loss, Split, Push}
    ensures line.Moneyline? ==> var g := Grade(line, home, away, drawSport).value;
      && !g.Push?
      && (g.Win? <==> (home > away && line.home) || (home < away && line.away) || (home == away && line.draw))
      && (g.Split? <==> home == away && !line.draw && !drawSport)
    ensures line.TotalLine? ==> var g := Grade(line, home, away, drawSport).value;
      && !g.Split?
      && (g.Push? <==> home + away == line.point)
      && (g.Win? <==> if line.over then home + away > line.point else home + away < line.point)
    ensures line.SpreadLine? ==> var g := Grade(line, home, away, drawSport).value;
      && !g.Split?
      && (g.Push? <==> if line.homeSide then home + line.point == away else away + line.point == home)
      && (g.Win? <==> if line.homeSide then home + line.point > away else away + line.point > home)
  {
  }

  /** The line of the bet's market, if it could be parsed. */
  function LineOf(f: Final, b: Bet): Line {
    if (b.market, b.outcome) in f.lines then f.lines[(b.market, b.outcome)] else Ungradeable
  }

  /** A bet is closed by the grade of its line, and void without one. */
  lemma VerdictIsGrade(f: Final, b: Bet)
    ensures var g := Grade(LineOf(f, b), f.home, f.away, f.drawSport);
            Verdict(f, b) == if g.Some? then g.value else Void
  {
  }

  // ---- one bet ---------------------------------------------------------------------------

  /** What the bet cost and what came back for it are settled by how it was closed. */
  predicate PaidOut(b: Bet, r: Bet) {
    && r.pnl.Some? && !r.status.Open?
    && (r.status.Win? ==> r.pnl.value == b.shares - b.stake)
    && (r.status.Loss? ==> r.pnl.value == -b.stake)
    && (r.status.Split? ==> 2.0 * (r.pnl.value + b.stake) == b.shares)
    && (r.status.Push? || r.status.Void? ==> r.pnl.value == 0.0)
    && r == b.(status := r.status, pnl := r.pnl)
  }

  /** Settlement pays every open bet of the event by its grade, and leaves the other rows alone. */
  lemma SettledRow(k: Book, f: Final, i: nat)
    requires i < |k.bets|
    ensures var b, after := k.bets[i], Step(k, SettleOp(f)).bets;
      && |after| == |k.bets|
      && if b.event == f.event && b.status.Open?
         then PaidOut(b, after[i]) && after[i].status == (match Grade(LineOf(f, b), f.home, f.away, f.drawSport)
                                                          case Some(g) => g
                                                          case None => Void)
         else after[i] == b
  {
    VerdictIsGrade(f, k.bets[i]);
    VerdictCloses(f, k.bets[i]);
  }

  /** A void refunds every open bet of the event. */
  lemma VoidedRow(k: Book, event: string, i: nat)
    requires i < |k.bets|
    ensures var b, after := k.bets[i], Step(k, VoidOp(event)).bets;
      && |after| == |k.bets|
      && after[i] == if b.event == event && b.status.Open? then b.(status := Void, pnl := Some(0.0)) else b
  {
  }

  /** A cash-out closes exactly the bets whose mark takes an exit, at what the sale netted. */
  lemma CashedRow(k: Book, p: Prices, i: nat)
    requires i < |k.bets| && !MarksRaise(k, p)
    ensures var b, after := k.bets[i], Step(k, CashOutOp(p)).bets;
      var m := MarkOf(k, p, b);
      && |after| == |k.bets| && m.Marked?
      && if m.exit.Some?
         then after[i] == b.(status := CashedOut, highWater := m.highWater, pnl := Some(m.exit.value - b.stake))
         else after[i] == b.(highWater := m.highWater)
  {
    hide MarkRow;
    assert !MarkOf(k, p, k.bets[i]).SaleRaised?;
  }

  /** Only open bets of the event are marked, by their account's rules and the quote of their token. */
  lemma MarkedRow(k: Book, p: Prices, b: Bet, a: nat)
    requires a < |k.accounts| && k.accounts[a].name == b.account
    requires forall c | 0 <= c < |k.accounts| && k.accounts[c].name == b.account :: c == a
    ensures if b.event == p.event && b.status.Open?
            then MarkOf(k, p, b) == MarkRow(k.accounts[a], b,
                                            if b.token in p.quotes then Some(p.quotes[b.token]) else None,
                                            if b.token in p.probs then Some(p.probs[b.token]) else None, p.now)
            else MarkOf(k, p, b) == Marked(b.highWater, None)
  {
    hide MarkRow;
  }

  // ---- the bankrolls ---------------------------------------------------------------------

  /** What the rows that were closed between two tables brought back to the account: stake plus profit. */
  function ReturnedTo(before: seq<Bet>, after: seq<Bet>, name: string, k: nat): real
    requires k <= |before| && k <= |after|
  {
    if k == 0 then 0.0
    else
      var b, r := before[k - 1], after[k - 1];
      ReturnedTo(before, after, name, k - 1)
      + (if b.account == name && b.status.Open? && !r.status.Open? && r.pnl.Some? then b.stake + r.pnl.value else 0.0)
  }

  lemma {:induction false} CreditReturns(bets: seq<Bet>, cl: seq<Option<Closing>>, name: string, k: nat)
    requires |cl| == |bets| && k <= |bets|
    requires forall i | 0 <= i < |cl| && cl[i].Some? :: bets[i].status.Open? && !cl[i].value.status.Open?
    ensures CreditTo(bets, cl, name, k) == ReturnedTo(bets, CloseRows(bets, cl), name, k)
  {
    if k > 0 { CreditReturns(bets, cl, name, k - 1); }
  }

  /** Each bankroll rises by exactly what the closed rows of its account brought back, and nothing else changes. */
  ghost predicate CreditsReturned(before: Book, after: Book) {
    && |after.accounts| == |before.accounts| && |after.bets| == |before.bets|
    && forall a | 0 <= a < |before.accounts| ::
         var c := before.accounts[a];
         after.accounts[a]
         == c.(bankroll := c.bankroll + ReturnedTo(before.bets, after.bets, c.name, |before.bets|))
  }

  lemma CloseReturns(k: Book, cl: seq<Option<Closing>>)
    requires Closable(k, cl)
    ensures CreditsReturned(k, CloseBets(k, cl))
  {
    forall a | 0 <= a < |k.accounts|
      ensures CreditTo(k.bets, cl, k.accounts[a].name, |k.bets|)
           == ReturnedTo(k.bets, CloseRows(k.bets, cl), k.accounts[a].name, |k.bets|)
    {
      CreditReturns(k.bets, cl, k.accounts[a].name, |k.bets|);
    }
  }

  lemma SettledBankrolls(k: Book, f: Final)
    ensures CreditsReturned(k, Step(k, SettleOp(f)))
  {
    forall i | 0 <= i < |k.bets| ensures !Verdict(f, k.bets[i]).Open? { VerdictCloses(f, k.bets[i]); }
    CloseReturns(k, SettleClosings(f, k.bets));
  }

  lemma VoidedBankrolls(k: Book, event: string)
    ensures CreditsReturned(k, Step(k, VoidOp(event)))
  {
    CloseReturns(k, VoidClosings(event, k.bets));
  }

  lemma {:induction false} MarksReturnNothing(a: seq<Bet>, b: seq<Bet>, after: seq<Bet>, name: string, k: nat)
    requires |a| == |b| == |after| && k <= |a|
    requires forall i | 0 <= i < |a| :: a[i] == b[i].(highWater := a[i].highWater)
    ensures ReturnedTo(a, after, name, k) == ReturnedTo(b, after, name, k)
  {
    if k > 0 { MarksReturnNothing(a, b, after, name, k - 1); }
  }

  lemma CashedBankrolls(k: Book, p: Prices)
    requires !MarksRaise(k, p)
    ensures CreditsReturned(k, Step(k, CashOutOp(p)))
  {
    hide MarkRow;
    var marked, cl := Book(k.accounts, MarkBets(k, p)), ExitClosings(k, p);
    var after := CloseBets(marked, cl);
    CloseReturns(marked, cl);
    forall a | 0 <= a < |k.accounts|
      ensures ReturnedTo(marked.bets, after.bets, k.accounts[a].name, |k.bets|)
           == ReturnedTo(k.bets, after.bets, k.accounts[a].name, |k.bets|)
    {
      MarksReturnNothing(marked.bets, k.bets, after.bets, k.accounts[a].name, |k.bets|);
    }
  }

  /** A sale that raises leaves everything as it was. */
  lemma RaisedPass(k: Book, p: Prices)
    requires MarksRaise(k, p)
    ensures Step(k, CashOutOp(p)) == k
  {
  }

  /** The rows that were open in one table and are closed in the other. */
  function ClosedRows(before: seq<Bet>, after: seq<Bet>, k: nat): nat
    requires k <= |before| && k <= |after|
  {
    if k == 0 then 0
    else ClosedRows(before, after, k - 1) + if before[k - 1].status.Open? && !after[k - 1].status.Open? then 1 else 0
  }

  lemma {:induction false} CountsClosed(before: seq<Bet>, after: seq<Bet>, event: string, k: nat)
    requires |after| == |before| && k <= |before|
    requires forall i | 0 <= i < |before| && before[i].status.Open? ::
               if before[i].event == event then !after[i].status.Open? else after[i] == before[i]
    ensures OpenCount(before, event, k) == ClosedRows(before, after, k)
  {
    if k > 0 { CountsClosed(before, after, event, k - 1); }
  }

  /** What settling and voiding report is how many rows they closed. */
  lemma CloseCounts(k: Book, f: Final, event: string)
    ensures OpenCount(k.bets, f.event, |k.bets|) == ClosedRows(k.bets, Step(k, SettleOp(f)).bets, |k.bets|)
    ensures OpenCount(k.bets, event, |k.bets|) == ClosedRows(k.bets, Step(k, VoidOp(event)).bets, |k.bets|)
  {
    hide Verdict;
    var settled, voided := Step(k, SettleOp(f)).bets, Step(k, VoidOp(event)).bets;
    forall i | 0 <= i < |k.bets|
      ensures settled[i] == k.bets[i] || (k.bets[i].event == f.event && !settled[i].status.Open?)
      ensures k.bets[i].status.Open? && k.bets[i].event == f.event ==> !settled[i].status.Open?
      ensures voided[i] == k.bets[i] || (k.bets[i].event == event && !voided[i].status.Open?)
      ensures k.bets[i].status.Open? && k.bets[i].event == event ==> !voided[i].status.Open?
    {
      SettledRow(k, f, i);
      VoidedRow(k, event, i);
    }
    CountsClosed(k.bets, settled, f.event, |k.bets|);
    CountsClosed(k.bets, voided, event, |k.bets|);
  }

  // ---- when a mark takes an exit ---------------------------------------------------------

  /** The gain is at least this share of the stake; of no stake, no gain counts as zero. */
  predicate Earns(gain: real, stake: real, share: real) {
    if stake > 0.0 then gain >= share * stake
    else if stake < 0.0 then gain <= share * stake
    else share <= 0.0
  }

  /** The gain is a loss of at least this share of the stake. */
  predicate Loses(gain: real, stake: real, share: real) {
    if stake > 0.0 then gain + share * stake <= 0.0
    else if stake < 0.0 then gain + share * stake >= 0.0
    else share <= 0.0
  }

  /** The gain is worth taking at all. */
  predicate WorthTaking(x: ExitRules, b: Bet, gain: real) { gain >= x.minProfit && gain >= x.minProfitPct * b.stake }

  /** The best gain so far has reached the activation, and its drawdown share has been given back. */
  predicate GivenBack(x: ExitRules, b: Bet, gain: real, best: real) {
    best >= x.activationPct * b.stake && best - gain >= best * x.drawdownPct
  }

  predicate AgainstModel(x: ExitRules, effective: real, prob: Option<real>) {
    prob.Some? && effective >= prob.value + x.reversal
  }

  /** The rules take the sale s: the hard target, the trailing stop, a reversal in profit, or one past the stop loss. */
  predicate Takes(x: ExitRules, b: Bet, s: SaleResult, effective: real, prob: Option<real>, now: real, best: real) {
    var gain, rise := s.net - b.stake, effective - b.entryPrice;
    && (x.minHold <= 0.0 || now >= b.placedAt + x.minHold)
    && (|| (rise >= x.minMove && Earns(gain, b.stake, x.hardPct))
        || (rise >= x.minMove && WorthTaking(x, b, gain) && GivenBack(x, b, gain, best))
        || (rise >= x.minMove && WorthTaking(x, b, gain) && AgainstModel(x, effective, prob))
        || (Loses(gain, b.stake, x.stopLossPct) && AgainstModel(x, effective, prob)))
  }

  lemma ReturnIs(b: Bet, net: real, share: real)
    ensures ReturnPct(b, net) >= share <==> Earns(net - b.stake, b.stake, share)
    ensures ReturnPct(b, net) <= -share <==> Loses(net - b.stake, b.stake, share)
  {
    if b.stake != 0.0 {
      var q := ReturnPct(b, net);
      RatioIs(net - b.stake, b.stake, q);
      Compare(q, share, b.stake);
      Compare(q, -share, b.stake);
      assert (-share) * b.stake == -(share * b.stake);
    }
  }

  lemma RatioIs(a: real, n: real, q: real)
    requires n != 0.0 && q == a / n
    ensures q * n == a
  {
  }

  lemma Compare(a: real, b: real, n: real)
    requires n != 0.0
    ensures n > 0.0 ==> (a >= b <==> a * n >= b * n) && (a <= b <==> a * n <= b * n)
    ensures n < 0.0 ==> (a >= b <==> a * n <= b * n) && (a <= b <==> a * n >= b * n)
  {
    assert a * n - b * n == (a - b) * n;
    if n > 0.0 {
      if a > b { MulStrict(a, b, n); } else if a < b { MulStrict(b, a, n); }
    } else {
      assert (a - b) * n == (b - a) * (-n);
      if a > b { MulStrict(a, b, -n); } else if a < b { MulStrict(b, a, -n); }
      assert a * (-n) == -(a * n) && b * (-n) == -(b * n);
    }
  }

  lemma DecisionIs(x: ExitRules, b: Bet, s: SaleResult, effective: real, prob: Option<real>, now: real, best: real)
    ensures CashOutDecision(x, b, s.net, effective, prob, now, best) <==> Takes(x, b, s, effective, prob, now, best)
  {
    hide ReturnPct, Earns, Loses;
    ReturnIs(b, s.net, x.hardPct);
    ReturnIs(b, s.net, x.stopLossPct);
    assert best * (1.0 - x.drawdownPct) == best - best * x.drawdownPct;
  }

  /**
   A mark of a row whose position sells as s takes s exactly when cash-out is on and the rules take it, judged
   by the best gain before this one; it remembers the better of that and the gain now.
   */
  lemma ExitExactly(a: Account, b: Bet, q: Option<Quote>, prob: Option<real>, now: real, s: SaleResult)
    requires SellsAs(b, q, s)
    ensures var m := MarkRow(a, b, q, prob, now);
      var gain := s.net - b.stake;
      var best := if b.highWater.Some? then b.highWater.value else gain;
      && m.Marked? && m.highWater == Some(if gain > best then gain else best)
      && m.exit == if a.cashOut && Takes(a.strategy.exits, b, s, s.effective.value, prob, now, best)
                   then Some(s.net) else None
  {
    hide SellResult, CashOutDecision, Takes;
    var best := if b.highWater.Some? then b.highWater.value else s.net - b.stake;
    DecisionIs(a.strategy.exits, b, s, s.effective.value, prob, now, best);
  }

  /** A row that does not sell whole is left as it is, unless the sale raises. */
  lemma Unsold(a: Account, b: Bet, q: Option<Quote>, prob: Option<real>, now: real)
    requires forall s :: !SellsAs(b, q, s)
    ensures var m := MarkRow(a, b, q, prob, now);
      && (m.SaleRaised? <==> b.token != "" && q.Some? && !q.value.stale
                             && SellResult(BookLevels(q.value.bids), OrderOn(q.value, b.shares)).Raised?)
      && (m.Marked? ==> m == Marked(b.highWater, None))
  {
    hide SellResult, CashOutDecision;
    var m := MarkRow(a, b, q, prob, now);
    if b.token != "" && q.Some? && !q.value.stale {
      var r := SellResult(BookLevels(q.value.bids), OrderOn(q.value, b.shares));
      if r.Returned? { assert !SellsAs(b, q, r.value); }
    }
  }
}
