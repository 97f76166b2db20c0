/**
 Opening paper bets (app/accounts.py, place) and the runs of every operation. Exposure caps are
 checked against an equity fixed at the start of the call; a fill may exceed the requested stake by
 the rounding of its fee, so every cap holds up to half a fee quantum.
 */
module Placement {
  import opened Accounts
  import opened Execution
  import opened Options
  import opened RealSums

  datatype Signal = Signal(token: string, market: string, outcome: string, group: string,
                           gradeable: bool, polymarket: bool, price: real, edge: real,
                           requiredEdge: real, confidence: real, kelly: real, fillable: Option<real>,
                           snapshot: string, prob: Option<real>, barred: set<string>)

  /** One call of place: `barred` lists the accounts whose allow-list excludes the event. */
  datatype Request = Request(event: string, sport: string, barred: set<string>, signals: seq<Signal>,
                             quotes: map<string, Quote>, probs: map<string, real>,
                             sigmas: map<string, real>, z: real, now: real)

  predicate EntryPriceAllowed(p: real) { 0.05 < p < 0.95 }

  function ModelProb(r: Request, token: string): Option<real> {
    if token in r.probs then Some(r.probs[token]) else None
  }

  /** The cheap prefilter shared by all strategies. */
  predicate EntryCandidate(r: Request, s: Signal) {
    var model := ModelProb(r, s.token);
    var edge := if model.Some? then model.value - s.price else s.edge;
    && s.token != "" && s.polymarket && EntryPriceAllowed(s.price)
    && (if model.Some? then 0.0 < model.value < 1.0 else s.confidence > 0.0)
    && edge > 0.0 && edge >= Max(0.0, s.requiredEdge)
  }

  function Candidates(r: Request, signals: seq<Signal>): (c: seq<Signal>) {
    if signals == [] then []
    else
      var s := signals[|signals| - 1];
      Candidates(r, signals[..|signals| - 1]) + (if EntryCandidate(r, s) then [s] else [])
  }

  function StakeFor(t: Strategy, s: Signal, bankroll: real): real {
    var wanted := match t.sizing
      case Flat => t.flatStake
      case FlatPct => t.flatPct * bankroll
      case Kelly => s.kelly * t.kellyMultiplier * bankroll;
    var capped := Min(Min(wanted, t.maxStakePct * bankroll), bankroll);
    var filled := if s.polymarket && s.fillable.Some?
                  then Min(capped, Max(0.0, s.fillable.value) * s.price) else capped;
    Max(0.0, filled)
  }

  /** Cash and open exposure of the account being served, kept up to date while it places bets. */
  datatype Running = Running(bankroll: real, total: real, event: real, sport: real)

  function Room(pct: real, equity: real, open: real): real { Max(0.0, Times(pct, equity) - open) }

  function Requested(t: Strategy, base: real, run: Running, groupOpen: real, equity: real): real {
    Min(Min(Min(Min(base, Room(t.eventPct, equity, run.event)), Room(t.sportPct, equity, run.sport)),
              Room(t.groupPct, equity, groupOpen)), Room(t.totalPct, equity, run.total))
  }

  /** The checks made before sizing, in the order they are made. */
  predicate Tradeable(t: Strategy, r: Request, s: Signal) {
    && s.token != "" && s.gradeable && s.token in r.quotes
    && 0.0 < s.price < 1.0 && EntryPriceAllowed(s.price)
    && t.name !in s.barred
    && (ModelProb(r, s.token).Some? ==> !r.quotes[s.token].stale)
    && (s.snapshot == "" || s.snapshot == r.quotes[s.token].hash)
  }

  /** The simulated fill clears the price range, the probability check and the edge floor. */
  predicate Clears(t: Strategy, r: Request, s: Signal, entry: real) {
    var model := ModelProb(r, s.token);
    var prob := if model.Some? then model else s.prob;
    var sigma := if model.Some? && s.token in r.sigmas then r.sigmas[s.token] else 0.0;
    && EntryPriceAllowed(entry)
    && prob.Some? && 0.0 < prob.value < 1.0
    && prob.value - entry - r.z * sigma >= Max(s.requiredEdge, t.edgeThreshold)
  }

  /** The bet one signal leads to, if any, before the uniqueness of its key is checked. */
  function PlannedBet(t: Strategy, account: string, r: Request, s: Signal, base: real, run: Running,
                      groupOpen: real, equity: real): (b: Option<Bet>)
  {
    if !Tradeable(t, r, s) then None
    else
      var stake, q := Requested(t, base, run, groupOpen, equity), r.quotes[s.token];
      if stake < 1.0 then None
      else
        match BuyResult(BookLevels(q.asks), OrderOn(q, stake))
        case Raised(_) => None
        case Returned(e) =>
          if !e.complete || e.effective.None? || !Clears(t, r, s, e.effective.value) then None
          else Some(Bet(account, r.event, s.market, s.outcome, r.sport, s.group, s.token, e.filledCash,
                        e.shares, e.effective.value, r.now, Open, None, None))
  }

  predicate Taken(bets: seq<Bet>, b: Bet) { exists i :: 0 <= i < |bets| && SameKey(bets[i], b) }

  /** Joint-Kelly stakes by token, or None on the independent path. */
  type Overrides = Option<map<string, real>>

  function BaseStake(t: Strategy, s: Signal, bankroll: real, o: Overrides): real {
    if o.None? then StakeFor(t, s, bankroll)
    else if s.token in o.value then o.value[s.token] else 0.0
  }

  function PlaceSignal(k: Book, a: nat, run: Running, r: Request, s: Signal, equity: real, o: Overrides)
    : (Book, Running)
    requires a < |k.accounts|
  {
    var c := k.accounts[a];
    var b := PlannedBet(c.strategy, c.name, r, s, BaseStake(c.strategy, s, run.bankroll, o), run,
                        Exposure(k.bets, c.name, ByGroup(s.group)), equity);
    if b.None? || Taken(k.bets, b.value) then (k, run)
    else
      var next := Running(run.bankroll - b.value.stake, run.total + b.value.stake,
                          run.event + b.value.stake, run.sport + b.value.stake);
      (Book(k.accounts[a := c.(bankroll := next.bankroll)], k.bets + [b.value]), next)
  }

  function PlaceSignals(k: Book, a: nat, run: Running, r: Request, signals: seq<Signal>, equity: real,
                        o: Overrides): (p: (Book, Running))
    requires a < |k.accounts|
    ensures |p.0.accounts| == |k.accounts|
  {
    if signals == [] then (k, run)
    else
      var (before, mid) := PlaceSignals(k, a, run, r, signals[..|signals| - 1], equity, o);
      PlaceSignal(before, a, mid, r, signals[|signals| - 1], equity, o)
  }

  function Opening(k: Book, a: nat, r: Request): Running
    requires a < |k.accounts|
  {
    var c := k.accounts[a];
    Running(c.bankroll, Exposure(k.bets, c.name, Total), Exposure(k.bets, c.name, ByEvent(r.event)),
            Exposure(k.bets, c.name, BySport(r.sport)))
  }

  function PlaceAccount(k: Book, a: nat, r: Request, o: Overrides): (after: Book)
    requires a < |k.accounts|
    ensures |after.accounts| == |k.accounts|
  {
    var c := k.accounts[a];
    if !c.active || c.strategy.name in r.barred then k
    else
      var run := Opening(k, a, r);
      PlaceSignals(k, a, run, r, Candidates(r, r.signals), run.bankroll + run.total, o).0
  }

  /** The first n accounts served in row order. */
  function PlaceTo(k: Book, r: Request, o: seq<Overrides>, n: nat): (after: Book)
    requires n <= |k.accounts| && n <= |o|
    ensures |after.accounts| == |k.accounts|
  {
    if n == 0 then k else PlaceAccount(PlaceTo(k, r, o, n - 1), n - 1, r, o[n - 1])
  }

  function Place(k: Book, r: Request, o: seq<Overrides>): Book
    requires |o| == |k.accounts|
  {
    PlaceTo(k, r, o, |k.accounts|)
  }

  // ---- one signal ------------------------------------------------------------------------

  ghost predicate RunMatches(k: Book, a: nat, run: Running, r: Request)
    requires a < |k.accounts|
  {
    run == Opening(k, a, r)
  }

  function Share(t: Strategy, s: Scope): real {
    match s
    case Total => t.totalPct
    case ByEvent(_) => t.eventPct
    case BySport(_) => t.sportPct
    case ByGroup(_) => t.groupPct
  }

  lemma {:induction false} ExposurePrefix(a: seq<Bet>, b: seq<Bet>, name: string, s: Scope, k: nat)
    requires k <= |a| && k <= |b| && forall i | 0 <= i < k :: a[i] == b[i]
    ensures ExposureTo(a, name, s, k) == ExposureTo(b, name, s, k)
    ensures RealizedTo(a, name, k) == RealizedTo(b, name, k)
  {
    if k > 0 { ExposurePrefix(a, b, name, s, k - 1); }
  }

  lemma ExposureAppend(bets: seq<Bet>, b: Bet, name: string, s: Scope)
    ensures Exposure(bets + [b], name, s) == Exposure(bets, name, s) + OpenStake(b, name, s)
    ensures Realized(bets + [b], name) == Realized(bets, name) + ClosedPnl(b, name)
  {
    ExposurePrefix(bets + [b], bets, name, s, |bets|);
  }

  /** A planned bet has a positive stake inside every cap, up to half a fee quantum. */
  lemma PlannedWithinCaps(t: Strategy, account: string, r: Request, s: Signal, base: real, run: Running,
                          groupOpen: real, equity: real)
    ensures var b := PlannedBet(t, account, r, s, base, run, groupOpen, equity);
      b.Some? ==>
        && b.value.stake > 0.0 && b.value.status.Open? && b.value.pnl.None?
        && b.value.account == account && b.value.event == r.event && b.value.sport == r.sport
        && b.value.group == s.group
        && run.event + b.value.stake <= Times(t.eventPct, equity) + HALF_QUANTUM
        && run.sport + b.value.stake <= Times(t.sportPct, equity) + HALF_QUANTUM
        && groupOpen + b.value.stake <= Times(t.groupPct, equity) + HALF_QUANTUM
        && run.total + b.value.stake <= Times(t.totalPct, equity) + HALF_QUANTUM
  {
    hide Times, BuyResult, Clears, BookLevels;
    if Tradeable(t, r, s) {
      var stake, q := Requested(t, base, run, groupOpen, equity), r.quotes[s.token];
      if stake >= 1.0 {
        match BuyResult(BookLevels(q.asks), OrderOn(q, stake))
        case Raised(_) =>
        case Returned(e) => BuyCost(BookLevels(q.asks), OrderOn(q, stake), e);
      }
    }
  }

  /** Exposure never exceeds what it was or its cap, in any scope of any account. */
  ghost predicate Capped(before: Book, after: Book, a: nat, equity: real, name: string, s: Scope)
    requires a < |before.accounts|
  {
    var c := before.accounts[a];
    Exposure(after.bets, name, s)
      <= if name == c.name
         then Max(Exposure(before.bets, name, s), Times(Share(c.strategy, s), equity) + HALF_QUANTUM)
         else Exposure(before.bets, name, s)
  }

  /** What serving one account keeps: tables, money, other rows, equity. */
  ghost predicate Served(before: Book, after: Book, a: nat)
    requires a < |before.accounts|
  {
    && |after.accounts| == |before.accounts|
    && (forall c | 0 <= c < |before.accounts| && c != a :: after.accounts[c] == before.accounts[c])
    && after.accounts[a] == before.accounts[a].(bankroll := after.accounts[a].bankroll)
    && after.accounts[a].bankroll + Exposure(after.bets, before.accounts[a].name, Total)
       == before.accounts[a].bankroll + Exposure(before.bets, before.accounts[a].name, Total)
  }

  lemma AppendServed(k: Book, a: nat, run: Running, r: Request, b: Bet, equity: real)
    requires WellFormed(k) && Conserved(k) && a < |k.accounts| && RunMatches(k, a, run, r)
    requires b.account == k.accounts[a].name && b.status.Open? && b.stake > 0.0 && b.pnl.None?
    requires b.event == r.event && b.sport == r.sport && !Taken(k.bets, b)
    ensures var next := Book(k.accounts[a := k.accounts[a].(bankroll := run.bankroll - b.stake)], k.bets + [b]);
      && WellFormed(next) && Conserved(next) && Evolves(k, next) && Served(k, next, a)
      && RunMatches(next, a, Running(run.bankroll - b.stake, run.total + b.stake, run.event + b.stake,
                                     run.sport + b.stake), r)
  {
    hide Exposure, Realized;
    var next := Book(k.accounts[a := k.accounts[a].(bankroll := run.bankroll - b.stake)], k.bets + [b]);
    ExposureAppend(k.bets, b, b.account, ByEvent(r.event));
    ExposureAppend(k.bets, b, b.account, BySport(r.sport));
    forall c | 0 <= c < |k.accounts|
      ensures next.accounts[c].bankroll + Exposure(next.bets, next.accounts[c].name, Total)
           == next.accounts[c].start + Realized(next.bets, next.accounts[c].name)
    {
      ExposureAppend(k.bets, b, k.accounts[c].name, Total);
      if c < a { assert k.accounts[c].name != k.accounts[a].name; }
      if a < c { assert k.accounts[a].name != k.accounts[c].name; }
    }
    ExposureAppend(k.bets, b, b.account, Total);
    AppendWellFormed(k, next, a, b);
  }

  lemma AppendWellFormed(k: Book, next: Book, a: nat, b: Bet)
    requires WellFormed(k) && a < |k.accounts| && b.account == k.accounts[a].name
    requires b.status.Open? && b.stake > 0.0 && b.pnl.None? && !Taken(k.bets, b)
    requires |next.accounts| == |k.accounts| && next.bets == k.bets + [b]
    requires forall c | 0 <= c < |k.accounts| :: next.accounts[c].name == k.accounts[c].name
    ensures WellFormed(next)
  {
    forall i | 0 <= i < |next.bets| ensures HasAccount(next.accounts, next.bets[i].account) {
      var at := a;
      if i < |k.bets| {
        assert HasAccount(k.accounts, k.bets[i].account);
        at :| 0 <= at < |k.accounts| && k.accounts[at].name == k.bets[i].account;
      }
      assert next.accounts[at].name == next.bets[i].account;
    }
  }

  lemma AppendCapped(k: Book, a: nat, run: Running, r: Request, b: Bet, equity: real, name: string, s: Scope)
    requires a < |k.accounts| && RunMatches(k, a, run, r) && b.account == k.accounts[a].name
    requires b.event == r.event && b.sport == r.sport && b.status.Open?
    requires var t := k.accounts[a].strategy;
      && run.event + b.stake <= Times(t.eventPct, equity) + HALF_QUANTUM
      && run.sport + b.stake <= Times(t.sportPct, equity) + HALF_QUANTUM
      && Exposure(k.bets, b.account, ByGroup(b.group)) + b.stake <= Times(t.groupPct, equity) + HALF_QUANTUM
      && run.total + b.stake <= Times(t.totalPct, equity) + HALF_QUANTUM
    ensures Capped(k, Book(k.accounts, k.bets + [b]), a, equity, name, s)
  {
    hide Exposure, Times;
    ExposureAppend(k.bets, b, name, s);
  }

  /** What a signal keeps, given matching running totals. */
  lemma SignalKeeps(k: Book, a: nat, run: Running, r: Request, s: Signal, equity: real, o: Overrides)
    requires WellFormed(k) && Conserved(k) && a < |k.accounts| && RunMatches(k, a, run, r)
    ensures var (after, next) := PlaceSignal(k, a, run, r, s, equity, o);
      && WellFormed(after) && Conserved(after) && Evolves(k, after) && Served(k, after, a)
      && RunMatches(after, a, next, r)
      && (forall name: string, scope: Scope :: Capped(k, after, a, equity, name, scope))
      && (after == k || next.total <= Times(k.accounts[a].strategy.totalPct, equity) + HALF_QUANTUM)
  {
    hide WellFormed, Conserved, Evolves, Exposure, PlannedBet, Times, StakeFor, Taken;
    var c := k.accounts[a];
    var groupOpen := Exposure(k.bets, c.name, ByGroup(s.group));
    var base := BaseStake(c.strategy, s, run.bankroll, o);
    var b := PlannedBet(c.strategy, c.name, r, s, base, run, groupOpen, equity);
    PlannedWithinCaps(c.strategy, c.name, r, s, base, run, groupOpen, equity);
    if b.None? || Taken(k.bets, b.value) {
      EvolvesSelf(k);
    } else {
      AppendServed(k, a, run, r, b.value, equity);
      forall name: string, scope: Scope
        ensures Capped(k, PlaceSignal(k, a, run, r, s, equity, o).0, a, equity, name, scope)
      {
        AppendCapped(k, a, run, r, b.value, equity, name, scope);
      }
    }
  }

  // ---- one account, then all of them -----------------------------------------------------

  lemma CappedTrans(k: Book, mid: Book, after: Book, a: nat, equity: real, name: string, s: Scope)
    requires a < |k.accounts| && a < |mid.accounts|
    requires mid.accounts[a].name == k.accounts[a].name && mid.accounts[a].strategy == k.accounts[a].strategy
    requires Capped(k, mid, a, equity, name, s) && Capped(mid, after, a, equity, name, s)
    ensures Capped(k, after, a, equity, name, s)
  {
    hide Exposure, Times;
  }

  lemma {:induction false} SignalsKeep(k: Book, a: nat, run: Running, r: Request, signals: seq<Signal>,
                                       equity: real, o: Overrides)
    requires WellFormed(k) && Conserved(k) && a < |k.accounts| && RunMatches(k, a, run, r)
    ensures var (after, next) := PlaceSignals(k, a, run, r, signals, equity, o);
      && WellFormed(after) && Conserved(after) && Evolves(k, after) && Served(k, after, a)
      && RunMatches(after, a, next, r)
      && (forall name: string, scope: Scope :: Capped(k, after, a, equity, name, scope))
      && (after == k || next.total <= Times(k.accounts[a].strategy.totalPct, equity) + HALF_QUANTUM)
  {
    hide WellFormed, Conserved, Evolves, Exposure, Times, PlaceSignal, Opening, Capped;
    if signals == [] {
      EvolvesSelf(k);
      forall name: string, scope: Scope ensures Capped(k, k, a, equity, name, scope) {
        CappedSelf(k, a, equity, name, scope);
      }
    } else {
      var (mid, here) := PlaceSignals(k, a, run, r, signals[..|signals| - 1], equity, o);
      SignalsKeep(k, a, run, r, signals[..|signals| - 1], equity, o);
      SignalKeeps(mid, a, here, r, signals[|signals| - 1], equity, o);
      var (after, next) := PlaceSignal(mid, a, here, r, signals[|signals| - 1], equity, o);
      EvolvesTrans(k, mid, after);
      forall name: string, scope: Scope ensures Capped(k, after, a, equity, name, scope) {
        CappedTrans(k, mid, after, a, equity, name, scope);
      }
      if after == mid { SameRun(mid, a, here, next, r); }
    }
  }

  lemma SameRun(k: Book, a: nat, run: Running, next: Running, r: Request)
    requires a < |k.accounts| && RunMatches(k, a, run, r) && RunMatches(k, a, next, r)
    ensures run == next
  {
  }

  lemma CappedSelf(k: Book, a: nat, equity: real, name: string, s: Scope)
    requires a < |k.accounts|
    ensures Capped(k, k, a, equity, name, s)
  {
    hide Exposure, Times;
  }

  function Equity(k: Book, a: nat): real
    requires a < |k.accounts|
  {
    k.accounts[a].bankroll + Exposure(k.bets, k.accounts[a].name, Total)
  }

  /** Serving one account: every cap, the equity, and the cash floor. */
  lemma AccountKeeps(k: Book, a: nat, r: Request, o: Overrides)
    requires WellFormed(k) && Conserved(k) && a < |k.accounts|
    ensures var after := PlaceAccount(k, a, r, o);
      && WellFormed(after) && Conserved(after) && Evolves(k, after) && Served(k, after, a)
      && (forall name: string, scope: Scope :: Capped(k, after, a, Equity(k, a), name, scope))
      && (k.accounts[a].strategy.totalPct <= 1.0 && k.accounts[a].bankroll >= 0.0 ==>
            after.accounts[a].bankroll >= -HALF_QUANTUM)
  {
    hide WellFormed, Conserved, Evolves, Exposure, Times, PlaceSignals, Capped, Candidates;
    var run, after := Opening(k, a, r), PlaceAccount(k, a, r, o);
    SignalsKeep(k, a, run, r, Candidates(r, r.signals), run.bankroll + run.total, o);
    EvolvesSelf(k);
    forall name: string, scope: Scope ensures Capped(k, k, a, Equity(k, a), name, scope) {
      CappedSelf(k, a, Equity(k, a), name, scope);
    }
    if k.accounts[a].strategy.totalPct <= 1.0 && k.accounts[a].bankroll >= 0.0 && after != k {
      ExposureSign(k, k.accounts[a].name, Total, |k.bets|);
      EquityBound(k.accounts[a].strategy.totalPct, Equity(k, a));
    }
  }

  lemma EquityBound(pct: real, equity: real)
    requires pct <= 1.0 && equity >= 0.0
    ensures Times(pct, equity) <= equity
  {
    MulMono(1.0, pct, equity);
  }

  lemma {:induction false} ExposureSign(k: Book, name: string, s: Scope, n: nat)
    requires WellFormed(k) && n <= |k.bets|
    ensures ExposureTo(k.bets, name, s, n) >= 0.0
    ensures n == |k.bets| ==> Exposure(k.bets, name, s) >= 0.0
  {
    if n > 0 { ExposureSign(k, name, s, n - 1); }
  }

  /** What one row ends with after a whole call of place. */
  ghost predicate Row(before: Book, after: Book, a: nat)
    requires a < |before.accounts| && |after.accounts| == |before.accounts|
  {
    var c := before.accounts[a];
    && after.accounts[a].name == c.name && Equity(after, a) == Equity(before, a)
    && (forall s: Scope ::
          Exposure(after.bets, c.name, s)
          <= Max(Exposure(before.bets, c.name, s), Times(Share(c.strategy, s), Equity(before, a)) + HALF_QUANTUM))
    && (c.strategy.totalPct <= 1.0 && c.bankroll >= 0.0 ==> after.accounts[a].bankroll >= -HALF_QUANTUM)
  }

  /** A row is untouched while another account is served. */
  ghost predicate Untouched(before: Book, after: Book, a: nat)
    requires a < |before.accounts| && |after.accounts| == |before.accounts|
  {
    && after.accounts[a] == before.accounts[a]
    && forall s: Scope ::
         Exposure(after.bets, before.accounts[a].name, s) == Exposure(before.bets, before.accounts[a].name, s)
  }

  lemma {:induction false} OtherExposure(k: Book, a: nat, run: Running, r: Request, signals: seq<Signal>,
                                         equity: real, o: Overrides, name: string, s: Scope)
    requires a < |k.accounts| && name != k.accounts[a].name
    ensures var after := PlaceSignals(k, a, run, r, signals, equity, o).0;
      Exposure(after.bets, name, s) == Exposure(k.bets, name, s) && after.accounts[a].name == k.accounts[a].name
  {
    hide Exposure, PlannedBet;
    if signals != [] {
      var (mid, here) := PlaceSignals(k, a, run, r, signals[..|signals| - 1], equity, o);
      OtherExposure(k, a, run, r, signals[..|signals| - 1], equity, o, name, s);
      var signal, c := signals[|signals| - 1], mid.accounts[a];
      var base := BaseStake(c.strategy, signal, here.bankroll, o);
      var groupOpen := Exposure(mid.bets, c.name, ByGroup(signal.group));
      var b := PlannedBet(c.strategy, c.name, r, signal, base, here, groupOpen, equity);
      PlannedWithinCaps(c.strategy, c.name, r, signal, base, here, groupOpen, equity);
      if b.Some? { ExposureAppend(mid.bets, b.value, name, s); }
    }
  }

  lemma AccountLeavesOthers(k: Book, a: nat, r: Request, o: Overrides, c: nat)
    requires WellFormed(k) && Conserved(k) && a < |k.accounts| && c < |k.accounts| && c != a
    ensures Untouched(k, PlaceAccount(k, a, r, o), c)
  {
    hide Exposure, PlaceSignals, Candidates, Conserved, Capped;
    AccountKeeps(k, a, r, o);
    var run := Opening(k, a, r);
    assert k.accounts[c].name != k.accounts[a].name;
    forall s: Scope
      ensures Exposure(PlaceAccount(k, a, r, o).bets, k.accounts[c].name, s) == Exposure(k.bets, k.accounts[c].name, s)
    {
      OtherExposure(k, a, run, r, Candidates(r, r.signals), run.bankroll + run.total, o, k.accounts[c].name, s);
    }
  }

  lemma {:induction false} PlaceToKeeps(k: Book, r: Request, o: seq<Overrides>, n: nat)
    requires WellFormed(k) && Conserved(k) && n <= |k.accounts| && n <= |o|
    ensures var after := PlaceTo(k, r, o, n);
      && WellFormed(after) && Conserved(after) && Evolves(k, after)
      && (forall a | 0 <= a < n :: Row(k, after, a))
      && (forall a | n <= a < |k.accounts| :: Untouched(k, after, a))
  {
    hide WellFormed, Conserved, Evolves, Exposure, Times, PlaceAccount, Capped;
    if n == 0 {
      EvolvesSelf(k);
    } else {
      var mid, after := PlaceTo(k, r, o, n - 1), PlaceTo(k, r, o, n);
      PlaceToKeeps(k, r, o, n - 1);
      AccountKeeps(mid, n - 1, r, o[n - 1]);
      EvolvesTrans(k, mid, after);
      RowServed(k, mid, after, n - 1);
      forall a | 0 <= a < |k.accounts| && a != n - 1
        ensures a < n - 1 ==> Row(k, after, a)
        ensures a > n - 1 ==> Untouched(k, after, a)
      {
        AccountLeavesOthers(mid, n - 1, r, o[n - 1], a);
        if a < n - 1 { RowThenUntouched(k, mid, after, a); } else { UntouchedTrans(k, mid, after, a); }
      }
    }
  }

  lemma RowThenUntouched(k: Book, mid: Book, after: Book, a: nat)
    requires a < |k.accounts| == |mid.accounts| == |after.accounts|
    requires Row(k, mid, a) && Untouched(mid, after, a)
    ensures Row(k, after, a)
  {
    hide Exposure, Times;
    forall s: Scope
      ensures Exposure(after.bets, k.accounts[a].name, s) == Exposure(mid.bets, k.accounts[a].name, s)
    {
    }
  }

  lemma UntouchedTrans(k: Book, mid: Book, after: Book, a: nat)
    requires a < |k.accounts| == |mid.accounts| == |after.accounts|
    requires Untouched(k, mid, a) && Untouched(mid, after, a)
    ensures Untouched(k, after, a)
  {
    hide Exposure;
    forall s: Scope
      ensures Exposure(after.bets, k.accounts[a].name, s) == Exposure(k.bets, k.accounts[a].name, s)
    {
    }
  }

  lemma RowServed(k: Book, mid: Book, after: Book, a: nat)
    requires a < |k.accounts| == |mid.accounts| == |after.accounts| && Untouched(k, mid, a) && Served(mid, after, a)
    requires forall name: string, s: Scope :: Capped(mid, after, a, Equity(mid, a), name, s)
    requires mid.accounts[a].strategy.totalPct <= 1.0 && mid.accounts[a].bankroll >= 0.0 ==>
               after.accounts[a].bankroll >= -HALF_QUANTUM
    ensures Row(k, after, a)
  {
    hide Exposure, Times;
    var c := k.accounts[a];
    forall s: Scope
      ensures Exposure(after.bets, c.name, s)
           <= Max(Exposure(k.bets, c.name, s), Times(Share(c.strategy, s), Equity(k, a)) + HALF_QUANTUM)
    {
      assert Capped(mid, after, a, Equity(mid, a), c.name, s);
    }
  }

  /**
   Main result for place: whatever the signals, quotes and base stakes, each account keeps its
   equity, stays inside each cap or where it was, and cannot be overdrawn beyond the fee rounding.
   */
  lemma PlaceKeeps(k: Book, r: Request, o: seq<Overrides>)
    requires WellFormed(k) && Conserved(k) && |o| == |k.accounts|
    ensures var after := Place(k, r, o);
      && WellFormed(after) && Conserved(after) && Evolves(k, after) && |after.accounts| == |k.accounts|
      && forall a | 0 <= a < |k.accounts| :: Row(k, after, a)
  {
    PlaceToKeeps(k, r, o, |k.accounts|);
  }
}
