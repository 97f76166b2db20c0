/**
 Paper accounts (app/accounts.py) as values: the accounts and bets tables, what every operation
 does to them, and the money invariants of every run. The class in AccountBook performs the same
 operations in place.
 */
module Accounts {
  import opened Execution
  import opened Options
  import opened RealSums
  import opened Sale

  datatype Sizing = Kelly | Flat | FlatPct

  datatype Strategy = Strategy(name: string, sizing: Sizing, kellyMultiplier: real, flatStake: real,
                               flatPct: real, maxStakePct: real, eventPct: real, sportPct: real,
                               groupPct: real, totalPct: real, startBankroll: real, edgeThreshold: real,
                               cashOutEnabled: bool, exits: ExitRules)

  datatype ExitRules = ExitRules(minHold: real, minMove: real, minProfit: real, minProfitPct: real,
                                 hardPct: real, activationPct: real, drawdownPct: real,
                                 reversal: real, stopLossPct: real)

  datatype Account = Account(name: string, strategy: Strategy, start: real, bankroll: real,
                             cashOut: bool, custom: bool, active: bool)

  datatype Status = Open | Win | Loss | Split | Push | Void | CashedOut

  datatype Bet = Bet(account: string, event: string, market: string, outcome: string, sport: string,
                     group: string, token: string, stake: real, shares: real, entryPrice: real,
                     placedAt: real, status: Status, pnl: Option<real>, highWater: Option<real>)

  datatype Book = Book(accounts: seq<Account>, bets: seq<Bet>)

  // ---- sums over the tables --------------------------------------------------------------

  datatype Scope = Total | ByEvent(event: string) | BySport(sport: string) | ByGroup(group: string)

  predicate InScope(b: Bet, s: Scope) {
    match s
    case Total => true
    case ByEvent(e) => b.event == e
    case BySport(p) => b.sport == p
    case ByGroup(g) => b.group == g
  }

  /** What bet b adds to the account's open exposure in the scope. */
  function OpenStake(b: Bet, name: string, s: Scope): real {
    if b.status.Open? && b.account == name && InScope(b, s) then b.stake else 0.0
  }

  /** Open stake of the account's bets in the scope, over the first k rows. */
  function ExposureTo(bets: seq<Bet>, name: string, s: Scope, k: nat): real
    requires k <= |bets|
  {
    if k == 0 then 0.0 else ExposureTo(bets, name, s, k - 1) + OpenStake(bets[k - 1], name, s)
  }

  function Exposure(bets: seq<Bet>, name: string, s: Scope): real { ExposureTo(bets, name, s, |bets|) }

  function ClosedPnl(b: Bet, name: string): real {
    if !b.status.Open? && b.account == name && b.pnl.Some? then b.pnl.value else 0.0
  }

  function RealizedTo(bets: seq<Bet>, name: string, k: nat): real
    requires k <= |bets|
  {
    if k == 0 then 0.0 else RealizedTo(bets, name, k - 1) + ClosedPnl(bets[k - 1], name)
  }

  function Realized(bets: seq<Bet>, name: string): real { RealizedTo(bets, name, |bets|) }

  /** The event's open bets among the first k. */
  function OpenCount(bets: seq<Bet>, event: string, k: nat): nat
    requires k <= |bets|
  {
    if k == 0 then 0
    else OpenCount(bets, event, k - 1) + if bets[k - 1].event == event && bets[k - 1].status.Open? then 1 else 0
  }

  // ---- well-formed tables and conservation -----------------------------------------------

  predicate SameKey(a: Bet, b: Bet) {
    a.account == b.account && a.event == b.event && a.market == b.market && a.outcome == b.outcome
  }

  ghost predicate HasAccount(accounts: seq<Account>, name: string) {
    exists a :: 0 <= a < |accounts| && accounts[a].name == name
  }

  /** Primary keys hold, every bet belongs to an account, and exactly the closed bets carry a pnl. */
  ghost predicate WellFormed(k: Book) {
    && (forall i, j | 0 <= i < j < |k.accounts| :: k.accounts[i].name != k.accounts[j].name)
    && (forall i, j | 0 <= i < j < |k.bets| :: !SameKey(k.bets[i], k.bets[j]))
    && (forall i | 0 <= i < |k.bets| :: HasAccount(k.accounts, k.bets[i].account))
    && (forall i | 0 <= i < |k.bets| :: k.bets[i].stake > 0.0 && (k.bets[i].pnl.None? <==> k.bets[i].status.Open?))
  }

  /** Cash plus open stakes is the starting bankroll plus realised profit, account by account. */
  ghost predicate Conserved(k: Book) {
    forall a | 0 <= a < |k.accounts| ::
      var c := k.accounts[a];
      c.bankroll + Exposure(k.bets, c.name, Total) == c.start + Realized(k.bets, c.name)
  }

  /** Later tables keep every row; money fields never change and a closed row stays as it is. */
  ghost predicate Evolves(before: Book, after: Book) {
    && |before.accounts| <= |after.accounts| && |before.bets| <= |after.bets|
    && (forall a | 0 <= a < |before.accounts| ::
          after.accounts[a].name == before.accounts[a].name && after.accounts[a].start == before.accounts[a].start)
    && (forall i | 0 <= i < |before.bets| ::
          && SameKey(after.bets[i], before.bets[i]) && after.bets[i].stake == before.bets[i].stake
          && after.bets[i].shares == before.bets[i].shares
          && (!before.bets[i].status.Open? ==> after.bets[i] == before.bets[i]))
  }

  lemma EvolvesTrans(a: Book, b: Book, c: Book)
    requires Evolves(a, b) && Evolves(b, c)
    ensures Evolves(a, c)
  {
  }

  // ---- closing bets: settlement, voids and cash-outs -------------------------------------

  /** How a bet is closed and what is credited for it. */
  datatype Closing = Closing(status: Status, payout: real)

  ghost predicate Closable(k: Book, cl: seq<Option<Closing>>) {
    |cl| == |k.bets| && forall i | 0 <= i < |cl| && cl[i].Some? :: k.bets[i].status.Open? && !cl[i].value.status.Open?
  }

  function Closed(b: Bet, c: Option<Closing>): Bet {
    if c.None? then b else b.(status := c.value.status, pnl := Some(c.value.payout - b.stake))
  }

  function CreditOf(b: Bet, c: Option<Closing>, name: string): real {
    if c.Some? && b.account == name then c.value.payout else 0.0
  }

  function CreditTo(bets: seq<Bet>, cl: seq<Option<Closing>>, name: string, k: nat): real
    requires k <= |bets| && k <= |cl|
  {
    if k == 0 then 0.0 else CreditTo(bets, cl, name, k - 1) + CreditOf(bets[k - 1], cl[k - 1], name)
  }

  function CloseRows(bets: seq<Bet>, cl: seq<Option<Closing>>): (r: seq<Bet>)
    requires |cl| == |bets|
    ensures |r| == |bets| && forall i | 0 <= i < |r| :: r[i] == Closed(bets[i], cl[i])
  {
    seq(|bets|, i requires 0 <= i < |bets| => Closed(bets[i], cl[i]))
  }

  function CreditRows(accounts: seq<Account>, bets: seq<Bet>, cl: seq<Option<Closing>>): (r: seq<Account>)
    requires |cl| == |bets|
    ensures |r| == |accounts|
    ensures forall a | 0 <= a < |r| ::
      r[a] == accounts[a].(bankroll := accounts[a].bankroll + CreditTo(bets, cl, accounts[a].name, |bets|))
  {
    seq(|accounts|, a requires 0 <= a < |accounts| =>
      accounts[a].(bankroll := accounts[a].bankroll + CreditTo(bets, cl, accounts[a].name, |bets|)))
  }

  function CloseBets(k: Book, cl: seq<Option<Closing>>): Book
    requires |cl| == |k.bets|
  {
    Book(CreditRows(k.accounts, k.bets, cl), CloseRows(k.bets, cl))
  }

  lemma {:induction false} ClosingBalances(bets: seq<Bet>, cl: seq<Option<Closing>>, name: string, k: nat)
    requires |cl| == |bets| && k <= |bets|
    requires forall i | 0 <= i < |cl| && cl[i].Some? :: bets[i].status.Open? && !cl[i].value.status.Open?
    ensures var after := CloseRows(bets, cl);
      CreditTo(bets, cl, name, k) + ExposureTo(after, name, Total, k) - RealizedTo(after, name, k)
      == ExposureTo(bets, name, Total, k) - RealizedTo(bets, name, k)
  {
    if k > 0 { ClosingBalances(bets, cl, name, k - 1); }
  }

  lemma CloseKeeps(k: Book, cl: seq<Option<Closing>>)
    requires WellFormed(k) && Conserved(k) && Closable(k, cl)
    ensures WellFormed(CloseBets(k, cl)) && Conserved(CloseBets(k, cl)) && Evolves(k, CloseBets(k, cl))
  {
    hide Closed;
    var after := CloseBets(k, cl);
    CloseKeepsRows(k, cl);
    forall a | 0 <= a < |after.accounts|
      ensures var c := after.accounts[a];
        c.bankroll + Exposure(after.bets, c.name, Total) == c.start + Realized(after.bets, c.name)
    {
      ClosingBalances(k.bets, cl, k.accounts[a].name, |k.bets|);
    }
  }

  lemma CloseKeepsRows(k: Book, cl: seq<Option<Closing>>)
    requires WellFormed(k) && Closable(k, cl)
    ensures WellFormed(CloseBets(k, cl)) && Evolves(k, CloseBets(k, cl))
  {
    var after := CloseBets(k, cl);
    forall i | 0 <= i < |after.bets| ensures HasAccount(after.accounts, after.bets[i].account) {
      assert HasAccount(k.accounts, k.bets[i].account);
      var a :| 0 <= a < |k.accounts| && k.accounts[a].name == k.bets[i].account;
      assert after.accounts[a].name == k.accounts[a].name;
    }
    forall i, j | 0 <= i < j < |after.accounts| ensures after.accounts[i].name != after.accounts[j].name {
      assert k.accounts[i].name != k.accounts[j].name;
    }
  }

  // ---- grading ---------------------------------------------------------------------------

  /** The parsed line of a bet; a moneyline label may match several sides. */
  datatype Line =
    | Moneyline(home: bool, away: bool, draw: bool)
    | TotalLine(point: real, over: bool)
    | SpreadLine(point: real, homeSide: bool)
    | Ungradeable

  function Grade(line: Line, home: real, away: real, drawSport: bool): Option<Status> {
    match line
    case Moneyline(h, a, d) =>
      if home > away then Some(if h then Win else Loss)
      else if away > home then Some(if a then Win else Loss)
      else if d then Some(Win)
      else if drawSport then Some(Loss)
      else Some(Split)
    case TotalLine(point, over) =>
      if home + away == point then Some(Push)
      else Some(if (home + away > point) == over then Win else Loss)
    case SpreadLine(point, homeSide) =>
      var covered := (if homeSide then home - away else away - home) + point;
      if covered == 0.0 then Some(Push) else Some(if covered > 0.0 then Win else Loss)
    case Ungradeable => None
  }

  function Payout(status: Status, stake: real, shares: real): real {
    match status
    case Win => shares
    case Loss => 0.0
    case Split => 0.5 * shares
    case _ => stake
  }

  /** The other side of a two-way market. */
  function OtherSide(line: Line): Line {
    match line
    case Moneyline(h, a, d) => Moneyline(a, h, d)
    case TotalLine(point, over) => TotalLine(point, !over)
    case SpreadLine(point, homeSide) => SpreadLine(-point, !homeSide)
    case Ungradeable => Ungradeable
  }

  /** A tie in a sport where the draw is an outcome of its own. */
  predicate DrawnOut(line: Line, home: real, away: real, drawSport: bool) {
    line.Moneyline? && drawSport && home == away
  }

  /**
   As many shares of each side of a market pay exactly their number, or both stakes are refunded; only a tie
   in a sport with draws leaves both sides of a moneyline with nothing, because there the draw has won.
   */
  lemma TwoSidesPay(line: Line, home: real, away: real, drawSport: bool, stake: real, other: real, shares: real)
    requires !line.Ungradeable? && (line.Moneyline? ==> line.home != line.away && !line.draw)
    ensures var a, b := Grade(line, home, away, drawSport), Grade(OtherSide(line), home, away, drawSport);
      && a.Some? && b.Some? && (a.value.Push? <==> b.value.Push?)
      && (DrawnOut(line, home, away, drawSport) <==> a.value.Loss? && b.value.Loss?)
      && Payout(a.value, stake, shares) + Payout(b.value, other, shares)
         == if a.value.Push? then stake + other else if DrawnOut(line, home, away, drawSport) then 0.0 else shares
  {
  }

  /** In a sport with draws exactly one of home, draw and away wins and the other two lose. */
  lemma ThreeWayOneWinner(home: real, away: real)
    ensures var h, a, d := Grade(Moneyline(true, false, false), home, away, true),
                           Grade(Moneyline(false, true, false), home, away, true),
                           Grade(Moneyline(false, false, true), home, away, true);
      && (h == Some(Win) <==> home > away) && (a == Some(Win) <==> away > home) && (d == Some(Win) <==> home == away)
      && (h != Some(Win) ==> h == Some(Loss)) && (a != Some(Win) ==> a == Some(Loss))
      && (d != Some(Win) ==> d == Some(Loss))
  {
  }

  type Lines = map<(string, string), Line>

  /** A final score, with the parsed lines of the event's markets. */
  datatype Final = Final(event: string, home: real, away: real, drawSport: bool, lines: Lines)

  function Verdict(f: Final, b: Bet): Status {
    var line := if (b.market, b.outcome) in f.lines then f.lines[(b.market, b.outcome)] else Ungradeable;
    match Grade(line, f.home, f.away, f.drawSport)
    case Some(s) => s
    case None => Void
  }

  function SettleOne(f: Final, b: Bet): Option<Closing> {
    if b.event == f.event && b.status.Open? then Some(Closing(Verdict(f, b), Payout(Verdict(f, b), b.stake, b.shares)))
    else None
  }

  function VoidOne(event: string, b: Bet): Option<Closing> {
    if b.event == event && b.status.Open? then Some(Closing(Void, b.stake)) else None
  }

  function SettleClosings(f: Final, bets: seq<Bet>): (cl: seq<Option<Closing>>)
    ensures |cl| == |bets| && forall i | 0 <= i < |cl| :: cl[i] == SettleOne(f, bets[i])
  {
    seq(|bets|, i requires 0 <= i < |bets| => SettleOne(f, bets[i]))
  }

  function VoidClosings(event: string, bets: seq<Bet>): (cl: seq<Option<Closing>>)
    ensures |cl| == |bets| && forall i | 0 <= i < |cl| :: cl[i] == VoidOne(event, bets[i])
  {
    seq(|bets|, i requires 0 <= i < |bets| => VoidOne(event, bets[i]))
  }

  lemma VerdictCloses(f: Final, b: Bet)
    ensures !Verdict(f, b).Open?
  {
  }

  // ---- marking and cashing out -----------------------------------------------------------

  datatype Quote = Quote(asks: seq<(real, real)>, bids: seq<(real, real)>, feeRate: Option<real>,
                         tick: Option<real>, minimum: Option<real>, active: bool, resolved: bool,
                         restricted: bool, accepting: bool, depthComplete: bool, quarantined: bool,
                         stale: bool, hash: string)

  /** All levels, or none when any of them is invalid. */
  function BookLevels(raw: seq<(real, real)>): (r: seq<Level>)
    ensures ValidLevels(r)
  {
    if forall i | 0 <= i < |raw| :: 0.0 < raw[i].0 < 1.0 && raw[i].1 >= 0.0
    then seq(|raw|, i requires 0 <= i < |raw| => Level(raw[i].0, raw[i].1))
    else []
  }

  function OrderOn(q: Quote, amount: real): Order {
    Order(amount, q.feeRate, false, q.tick, q.minimum, q.active, q.resolved, q.restricted, q.accepting,
          q.depthComplete, q.quarantined)
  }

  /** Profit of a sale over its stake, as a fraction. */
  function ReturnPct(b: Bet, net: real): real { if b.stake != 0.0 then (net - b.stake) / b.stake else 0.0 }

  predicate Held(x: ExitRules, b: Bet, now: real) { Max(0.0, now - b.placedAt) >= x.minHold }

  function RequiredProfit(x: ExitRules, b: Bet): real { Max(x.minProfit, x.minProfitPct * b.stake) }

  /** The hard target: the return and the price move are both reached. */
  predicate HardProfit(x: ExitRules, b: Bet, net: real, effective: real) {
    ReturnPct(b, net) >= x.hardPct && effective - b.entryPrice >= x.minMove
  }

  /** The model has turned against the position by the reversal margin. */
  predicate Reversed(x: ExitRules, effective: real, prob: Option<real>) {
    prob.Some? && prob.value - effective <= -x.reversal
  }

  /** Whether an executable net value should be taken now. */
  function CashOutDecision(x: ExitRules, b: Bet, net: real, effective: real, prob: Option<real>,
                           now: real, highWater: real): bool {
    var pnl := net - b.stake;
    var move := effective - b.entryPrice;
    var needed := RequiredProfit(x, b);
    if Max(0.0, now - b.placedAt) < x.minHold then false
    else if ReturnPct(b, net) >= x.hardPct && move >= x.minMove then true
    else if highWater >= x.activationPct * b.stake && pnl >= needed
            && pnl <= highWater * (1.0 - x.drawdownPct) && move >= x.minMove then true
    else if prob.None? then false
    else
      var reversed := prob.value - effective <= -x.reversal;
      (reversed && pnl >= needed && move >= x.minMove)
      || (reversed && ReturnPct(b, net) <= -x.stopLossPct)
  }

  /** Outcome of marking one row: the sale raised, or the new high water mark and any exit value. */
  datatype Mark = SaleRaised | Marked(highWater: Option<real>, exit: Option<real>)

  function MarkRow(a: Account, b: Bet, q: Option<Quote>, prob: Option<real>, now: real): Mark {
    if b.token == "" || q.None? || q.value.stale then Marked(b.highWater, None)
    else
      match SellResult(BookLevels(q.value.bids), OrderOn(q.value, b.shares))
      case Raised(_) => SaleRaised
      case Returned(s) =>
        if !s.complete || s.effective.None? then Marked(b.highWater, None)
        else
          var pnl := s.net - b.stake;
          var before := if b.highWater.Some? then b.highWater.value else pnl;
          var exit := a.cashOut && CashOutDecision(a.strategy.exits, b, s.net, s.effective.value, prob, now, before);
          Marked(Some(Max(before, pnl)), if exit then Some(s.net) else None)
  }

  /** The row has a fresh book on which the whole position sells as s. */
  predicate SellsAs(b: Bet, q: Option<Quote>, s: SaleResult) {
    && b.token != "" && q.Some? && !q.value.stale
    && SellResult(BookLevels(q.value.bids), OrderOn(q.value, b.shares)) == Returned(s)
    && s.complete && s.effective.Some?
  }

  /** The high-water mark never falls, and rises exactly to the profit of a complete sale above it. */
  lemma MarkRaisesHighWater(a: Account, b: Bet, q: Option<Quote>, prob: Option<real>, now: real)
    ensures var m := MarkRow(a, b, q, prob, now);
      m.Marked? ==>
        && (b.highWater.Some? ==> m.highWater.Some? && m.highWater.value >= b.highWater.value)
        && (m.highWater != b.highWater ==>
              exists s :: SellsAs(b, q, s) && m.highWater == Some(s.net - b.stake))
        && (forall s | SellsAs(b, q, s) :: m.highWater.Some? && m.highWater.value >= s.net - b.stake)
  {
    hide CashOutDecision, SellResult;
    var m := MarkRow(a, b, q, prob, now);
    if m.Marked? && m.highWater != b.highWater {
      var s := SellResult(BookLevels(q.value.bids), OrderOn(q.value, b.shares)).value;
      assert SellsAs(b, q, s);
    }
  }

  /**
   An exit takes the net of a complete sale on a fresh book, only with cash-out enabled and after the
   minimum hold. Below the required profit it comes only from the hard target or from a reversal past the
   stop loss; short of the minimum price move only from the latter.
   */
  lemma ExitMeaning(a: Account, b: Bet, q: Option<Quote>, prob: Option<real>, now: real)
    requires MarkRow(a, b, q, prob, now).Marked? && MarkRow(a, b, q, prob, now).exit.Some?
    ensures var x, net := a.strategy.exits, MarkRow(a, b, q, prob, now).exit.value;
      && a.cashOut && Held(x, b, now)
      && exists s :: SellsAs(b, q, s) && s.net == net
           && (net - b.stake < RequiredProfit(x, b) ==>
                 HardProfit(x, b, net, s.effective.value)
                 || (Reversed(x, s.effective.value, prob) && ReturnPct(b, net) <= -x.stopLossPct))
           && (s.effective.value - b.entryPrice < x.minMove ==>
                 Reversed(x, s.effective.value, prob) && ReturnPct(b, net) <= -x.stopLossPct)
  {
    hide SellResult, RequiredProfit, ReturnPct;
    var s := SellResult(BookLevels(q.value.bids), OrderOn(q.value, b.shares)).value;
    assert SellsAs(b, q, s);
  }

  /** The hard target and a reversal past the stop loss are never missed once cash-out is on and the hold is over. */
  lemma ExitTaken(a: Account, b: Bet, q: Option<Quote>, prob: Option<real>, now: real, s: SaleResult)
    requires a.cashOut && Held(a.strategy.exits, b, now) && SellsAs(b, q, s)
    requires var x := a.strategy.exits;
      || HardProfit(x, b, s.net, s.effective.value)
      || (Reversed(x, s.effective.value, prob) && ReturnPct(b, s.net) <= -x.stopLossPct)
    ensures MarkRow(a, b, q, prob, now).Marked? && MarkRow(a, b, q, prob, now).exit == Some(s.net)
  {
    hide SellResult, RequiredProfit, ReturnPct;
  }

  /** Everything a mark-and-cash-out pass is told about one event. */
  datatype Prices = Prices(event: string, quotes: map<string, Quote>, probs: map<string, real>, now: real)

  function OptionalQuote(p: Prices, token: string): Option<Quote> {
    if token in p.quotes then Some(p.quotes[token]) else None
  }

  function OptionalProb(p: Prices, token: string): Option<real> {
    if token in p.probs then Some(p.probs[token]) else None
  }

  /** The account row with the name, the last one if there are several. */
  function FindAccount(accounts: seq<Account>, name: string): (r: Option<nat>)
    ensures r.Some? ==> r.value < |accounts| && accounts[r.value].name == name
    ensures r.None? ==> forall a | 0 <= a < |accounts| :: accounts[a].name != name
  {
    if accounts == [] then None
    else if accounts[|accounts| - 1].name == name then Some(|accounts| - 1)
    else FindAccount(accounts[..|accounts| - 1], name)
  }

  function MarkOf(k: Book, p: Prices, b: Bet): Mark {
    var a := FindAccount(k.accounts, b.account);
    if b.event != p.event || !b.status.Open? || a.None? then Marked(b.highWater, None)
    else MarkRow(k.accounts[a.value], b, OptionalQuote(p, b.token), OptionalProb(p, b.token), p.now)
  }

  predicate MarksRaise(k: Book, p: Prices) { exists i :: 0 <= i < |k.bets| && MarkOf(k, p, k.bets[i]).SaleRaised? }

  function MarkBet(m: Mark, b: Bet): Bet { if m.Marked? then b.(highWater := m.highWater) else b }

  function MarkBets(k: Book, p: Prices): (r: seq<Bet>)
    ensures |r| == |k.bets| && forall i | 0 <= i < |r| :: r[i] == MarkBet(MarkOf(k, p, k.bets[i]), k.bets[i])
  {
    seq(|k.bets|, i requires 0 <= i < |k.bets| => MarkBet(MarkOf(k, p, k.bets[i]), k.bets[i]))
  }

  function ExitClosing(m: Mark): Option<Closing> {
    if m.Marked? && m.exit.Some? then Some(Closing(CashedOut, m.exit.value)) else None
  }

  function ExitClosings(k: Book, p: Prices): (cl: seq<Option<Closing>>)
    ensures |cl| == |k.bets| && forall i | 0 <= i < |cl| :: cl[i] == ExitClosing(MarkOf(k, p, k.bets[i]))
  {
    seq(|k.bets|, i requires 0 <= i < |k.bets| => ExitClosing(MarkOf(k, p, k.bets[i])))
  }

  /** The pass is one transaction: a raising sale leaves the tables as they were. */
  function MarkAndCashOut(k: Book, p: Prices): Book {
    if MarksRaise(k, p) then k else CloseBets(Book(k.accounts, MarkBets(k, p)), ExitClosings(k, p))
  }

  lemma {:induction false} SameMoney(a: seq<Bet>, b: seq<Bet>, name: string, s: Scope, k: nat)
    requires |a| == |b| && k <= |a|
    requires forall i | 0 <= i < |a| :: a[i] == b[i].(highWater := a[i].highWater)
    ensures ExposureTo(a, name, s, k) == ExposureTo(b, name, s, k)
    ensures RealizedTo(a, name, k) == RealizedTo(b, name, k)
  {
    if k > 0 { SameMoney(a, b, name, s, k - 1); }
  }

  lemma MarksKeep(k: Book, p: Prices)
    requires WellFormed(k) && Conserved(k)
    ensures var marked := Book(k.accounts, MarkBets(k, p));
      WellFormed(marked) && Conserved(marked) && Evolves(k, marked)
  {
    hide MarkRow;
    var after := MarkBets(k, p);
    forall a | 0 <= a < |k.accounts|
      ensures Exposure(after, k.accounts[a].name, Total) == Exposure(k.bets, k.accounts[a].name, Total)
      ensures Realized(after, k.accounts[a].name) == Realized(k.bets, k.accounts[a].name)
    {
      SameMoney(after, k.bets, k.accounts[a].name, Total, |after|);
    }
    forall i | 0 <= i < |after| ensures HasAccount(k.accounts, after[i].account) {
      assert HasAccount(k.accounts, k.bets[i].account);
    }
  }

  lemma CashOutKeeps(k: Book, p: Prices)
    requires WellFormed(k) && Conserved(k)
    ensures var after := MarkAndCashOut(k, p); WellFormed(after) && Conserved(after) && Evolves(k, after)
  {
    hide MarkRow, WellFormed, Conserved, Evolves, CloseBets;
    if MarksRaise(k, p) {
      EvolvesSelf(k);
    } else {
      var marked, cl := Book(k.accounts, MarkBets(k, p)), ExitClosings(k, p);
      MarksKeep(k, p);
      CloseKeeps(marked, cl);
      EvolvesTrans(k, marked, CloseBets(marked, cl));
    }
  }

  lemma EvolvesSelf(k: Book)
    ensures Evolves(k, k)
  {
  }
}
