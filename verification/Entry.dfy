/**
 When a signal becomes a paper bet and for how much, in the account's, the signal's and the quote's own
 numbers (app/accounts.py, stake_for and place).
 */
module Entry {
  import opened Accounts
  import opened Execution
  import opened FillOutcome
  import opened Options
  import opened Placement
  import opened RealSums

  // ---- how much --------------------------------------------------------------------------

  /** x dollars are within the account's own sizing of the signal. */
  predicate Sized(t: Strategy, s: Signal, bankroll: real, x: real) {
    && (t.sizing.Flat? ==> x <= t.flatStake)
    && (t.sizing.FlatPct? ==> x <= t.flatPct * bankroll)
    && (t.sizing.Kelly? ==> x <= s.kelly * t.kellyMultiplier * bankroll)
    && x <= t.maxStakePct * bankroll && x <= bankroll
    && (s.polymarket && s.fillable.Some? ==> x <= (if s.fillable.value > 0.0 then s.fillable.value else 0.0) * s.price)
  }

  /** The independent stake is the largest amount within the sizing, or nothing. */
  lemma StakeForMeaning(t: Strategy, s: Signal, bankroll: real, x: real)
    requires x > 0.0
    ensures x <= StakeFor(t, s, bankroll) <==> Sized(t, s, bankroll, x)
  {
    hide StakeFor, Sized, Max, Min;
    var wanted, most, fillable := Wanted(t, s, bankroll), t.maxStakePct * bankroll, Fillable(s);
    StakeForIs(t, s, bankroll, wanted, most, fillable);
    SizedIs(t, s, bankroll, x, wanted, most, fillable);
    LeastPositive(x, wanted, most, bankroll, fillable);
  }

  function Wanted(t: Strategy, s: Signal, bankroll: real): real {
    match t.sizing
    case Flat => t.flatStake
    case FlatPct => t.flatPct * bankroll
    case Kelly => s.kelly * t.kellyMultiplier * bankroll
  }

  function Fillable(s: Signal): real {
    if s.fillable.Some? && s.fillable.value > 0.0 then s.fillable.value * s.price else 0.0
  }

  lemma StakeForIs(t: Strategy, s: Signal, bankroll: real, wanted: real, most: real, fillable: real)
    requires wanted == Wanted(t, s, bankroll) && most == t.maxStakePct * bankroll && fillable == Fillable(s)
    ensures StakeFor(t, s, bankroll)
         == if s.polymarket && s.fillable.Some? then Max(0.0, Min(Min(Min(wanted, most), bankroll), fillable))
            else Max(0.0, Min(Min(wanted, most), bankroll))
  {
  }

  lemma SizedIs(t: Strategy, s: Signal, bankroll: real, x: real, wanted: real, most: real, fillable: real)
    requires wanted == Wanted(t, s, bankroll) && most == t.maxStakePct * bankroll && fillable == Fillable(s)
    ensures Sized(t, s, bankroll, x)
       <==> x <= wanted && x <= most && x <= bankroll && (s.polymarket && s.fillable.Some? ==> x <= fillable)
  {
  }

  lemma LeastPositive(x: real, a: real, b: real, c: real, d: real)
    requires x > 0.0
    ensures x <= Max(0.0, Min(Min(Min(a, b), c), d)) <==> x <= a && x <= b && x <= c && x <= d
    ensures x <= Max(0.0, Min(Min(a, b), c)) <==> x <= a && x <= b && x <= c
  {
  }

  lemma RoomMeaning(pct: real, equity: real, open: real, x: real)
    requires x > 0.0
    ensures x <= Room(pct, equity, open) <==> open + x <= pct * equity
  {
  }

  /** x dollars are within the sizing, or the joint stake, and every exposure cap. */
  predicate Allowed(t: Strategy, s: Signal, run: Running, groupOpen: real, equity: real, o: Overrides, x: real) {
    && (if o.None? then Sized(t, s, run.bankroll, x) else s.token in o.value && x <= o.value[s.token])
    && run.event + x <= t.eventPct * equity && run.sport + x <= t.sportPct * equity
    && groupOpen + x <= t.groupPct * equity && run.total + x <= t.totalPct * equity
  }

  /** The amount requested is the largest that is allowed. */
  lemma RequestedMeaning(t: Strategy, s: Signal, run: Running, groupOpen: real, equity: real, o: Overrides, x: real)
    requires x > 0.0
    ensures x <= Requested(t, BaseStake(t, s, run.bankroll, o), run, groupOpen, equity)
       <==> Allowed(t, s, run, groupOpen, equity, o, x)
  {
    hide StakeFor, Room, Sized;
    StakeForMeaning(t, s, run.bankroll, x);
    RoomMeaning(t.eventPct, equity, run.event, x);
    RoomMeaning(t.sportPct, equity, run.sport, x);
    RoomMeaning(t.groupPct, equity, groupOpen, x);
    RoomMeaning(t.totalPct, equity, run.total, x);
  }

  // ---- when ------------------------------------------------------------------------------

  /** The book of a quote: its levels as given, or nothing when one of them is no price or has no size. */
  lemma BookLevelsMeaning(raw: seq<(real, real)>)
    ensures (exists i | 0 <= i < |raw| :: raw[i].0 <= 0.0 || raw[i].0 >= 1.0 || raw[i].1 < 0.0)
      ==> BookLevels(raw) == []
    ensures (forall i | 0 <= i < |raw| :: 0.0 < raw[i].0 < 1.0 && raw[i].1 >= 0.0) ==>
              |BookLevels(raw)| == |raw|
              && forall i | 0 <= i < |raw| :: BookLevels(raw)[i] == Level(raw[i].0, raw[i].1)
  {
  }

  /** An order for the amount on the quote: everything it says about the market, and no partial fills. */
  lemma OrderOnMeaning(q: Quote, amount: real)
    ensures var o := OrderOn(q, amount);
      && o.amount == amount && o.feeRate == q.feeRate && o.tick == q.tick && o.minimum == q.minimum && !o.allowPartial
      && (Trading(o) <==> q.active && !q.resolved && !q.restricted && q.accepting && !q.quarantined)
      && (o.identityAmbiguous <==> q.quarantined) && (o.depthComplete <==> q.depthComplete)
  {
  }

  /** The signal may be bet on by the strategy, before sizing. */
  predicate Open(t: Strategy, r: Request, s: Signal) {
    && s.token != "" && s.gradeable && s.token in r.quotes && t.name !in s.barred
    && 0.05 < s.price < 0.95
    && (s.token in r.probs ==> !r.quotes[s.token].stale)
    && (s.snapshot != "" ==> s.snapshot == r.quotes[s.token].hash)
  }

  /** At the entry price the probability leaves the required edge, after the model's uncertainty. */
  predicate Profitable(t: Strategy, r: Request, s: Signal, entry: real) {
    && 0.05 < entry < 0.95
    && (s.token in r.probs || s.prob.Some?)
    && var prob := if s.token in r.probs then r.probs[s.token] else s.prob.value;
       var doubt := if s.token in r.probs && s.token in r.sigmas then r.z * r.sigmas[s.token] else 0.0;
       && 0.0 < prob < 1.0 && prob - entry - doubt >= s.requiredEdge && prob - entry - doubt >= t.edgeThreshold
  }

  lemma OpenMeaning(t: Strategy, r: Request, s: Signal)
    ensures Tradeable(t, r, s) <==> Open(t, r, s)
  {
  }

  lemma ProfitableMeaning(t: Strategy, r: Request, s: Signal, entry: real)
    ensures Clears(t, r, s, entry) <==> Profitable(t, r, s, entry)
  {
  }

  /** The fill e of the amount x on the signal's quote. */
  predicate FillsAs(r: Request, s: Signal, x: real, e: Execution)
    requires s.token in r.quotes
  {
    BuyResult(BookLevels(r.quotes[s.token].asks), OrderOn(r.quotes[s.token], x)) == Returned(e)
  }

  /** The bet that a fill of the signal opens. */
  predicate OpenedBy(c: Account, r: Request, s: Signal, e: Execution, b: Bet) {
    && b.account == c.name && b.event == r.event && b.sport == r.sport && b.market == s.market
    && b.outcome == s.outcome && b.group == s.group && b.token == s.token
    && b.stake == e.filledCash && b.shares == e.shares && e.effective == Some(b.entryPrice)
    && b.placedAt == r.now && b.status.Open? && b.pnl.None? && b.highWater.None?
  }

  /** x is the largest allowed amount, and it fills completely as e at a price that is profitable. */
  ghost predicate Enters(k: Book, c: Account, run: Running, r: Request, s: Signal, equity: real, o: Overrides,
                         x: real, e: Execution) {
    var groupOpen := Exposure(k.bets, c.name, ByGroup(s.group));
    && Open(c.strategy, r, s) && x >= 1.0
    && Allowed(c.strategy, s, run, groupOpen, equity, o, x)
    && (forall y | y > x :: !Allowed(c.strategy, s, run, groupOpen, equity, o, y))
    && FillsAs(r, s, x, e) && e.complete && e.effective.Some? && Profitable(c.strategy, r, s, e.effective.value)
    && !exists i :: 0 <= i < |k.bets| && SameBet(k.bets[i], c, r, s)
  }

  /** The row is the account's bet on the same outcome of the same market. */
  predicate SameBet(b: Bet, c: Account, r: Request, s: Signal) {
    b.account == c.name && b.event == r.event && b.market == s.market && b.outcome == s.outcome
  }

  lemma Largest(t: Strategy, s: Signal, run: Running, groupOpen: real, equity: real, o: Overrides, x: real)
    requires x > 0.0 && x == Requested(t, BaseStake(t, s, run.bankroll, o), run, groupOpen, equity)
    ensures Allowed(t, s, run, groupOpen, equity, o, x)
    ensures forall y | y > x :: !Allowed(t, s, run, groupOpen, equity, o, y)
  {
    hide Requested, BaseStake, Allowed;
    RequestedMeaning(t, s, run, groupOpen, equity, o, x);
    forall y | y > x ensures !Allowed(t, s, run, groupOpen, equity, o, y) {
      RequestedMeaning(t, s, run, groupOpen, equity, o, y);
    }
  }

  /**
   Serving a signal appends exactly the bet of the largest allowed amount, if that is at least a dollar, fills
   completely and is profitable, and the account has no bet on the outcome yet; otherwise it changes nothing.
   */
  lemma SignalEnters(k: Book, a: nat, run: Running, r: Request, s: Signal, equity: real, o: Overrides)
    requires a < |k.accounts|
    ensures var (after, next) := PlaceSignal(k, a, run, r, s, equity, o);
      var c := k.accounts[a];
      if exists x, e :: Enters(k, c, run, r, s, equity, o, x, e)
      then |after.bets| == |k.bets| + 1
           && Entered(k, a, run, r, s, equity, o, after, next, after.bets[|k.bets|])
      else after == k && next == run
  {
    hide PlaceSignal, PlanOf, Enters, Taken, Exposure, Requested, BaseStake, OpenedBy;
    var c := k.accounts[a];
    ServedPlan(k, a, run, r, s, equity, o);
    if x, e :| Enters(k, c, run, r, s, equity, o, x, e) {
      EntersAmount(k, c, run, r, s, equity, o, x, e);
      EntersPlans(k, c, run, r, s, equity, o, x, e);
      PlansEnters(k, c, run, r, s, equity, o);
    } else if PlanOf(k, c, run, r, s, equity, o).Some? {
      PlansEnters(k, c, run, r, s, equity, o);
    }
  }

  function PlanOf(k: Book, c: Account, run: Running, r: Request, s: Signal, equity: real, o: Overrides): Option<Bet> {
    PlannedBet(c.strategy, c.name, r, s, BaseStake(c.strategy, s, run.bankroll, o), run,
               Exposure(k.bets, c.name, ByGroup(s.group)), equity)
  }

  lemma ServedPlan(k: Book, a: nat, run: Running, r: Request, s: Signal, equity: real, o: Overrides)
    requires a < |k.accounts|
    ensures var c, b := k.accounts[a], PlanOf(k, k.accounts[a], run, r, s, equity, o);
      PlaceSignal(k, a, run, r, s, equity, o)
      == if b.None? || Taken(k.bets, b.value) then (k, run)
         else (Book(k.accounts[a := c.(bankroll := run.bankroll - b.value.stake)], k.bets + [b.value]),
               Running(run.bankroll - b.value.stake, run.total + b.value.stake, run.event + b.value.stake,
                       run.sport + b.value.stake))
  {
    hide PlannedBet, Exposure, BaseStake, Taken;
  }

  lemma EntersAmount(k: Book, c: Account, run: Running, r: Request, s: Signal, equity: real, o: Overrides,
                     x: real, e: Execution)
    requires Enters(k, c, run, r, s, equity, o, x, e)
    ensures x == Requested(c.strategy, BaseStake(c.strategy, s, run.bankroll, o), run,
                           Exposure(k.bets, c.name, ByGroup(s.group)), equity)
  {
    hide Requested, BaseStake, Allowed, Profitable, Open, FillsAs, Exposure;
    SameAmount(c.strategy, s, run, Exposure(k.bets, c.name, ByGroup(s.group)), equity, o, x);
  }

  /** What is appended for the bet b: one row, its stake taken from the bankroll and added to the running totals. */
  ghost predicate Entered(k: Book, a: nat, run: Running, r: Request, s: Signal, equity: real, o: Overrides,
                          after: Book, next: Running, b: Bet)
    requires a < |k.accounts|
  {
    var c := k.accounts[a];
    && after.bets == k.bets + [b] && after.accounts == k.accounts[a := c.(bankroll := run.bankroll - b.stake)]
    && next == Running(run.bankroll - b.stake, run.total + b.stake, run.event + b.stake, run.sport + b.stake)
    && exists x, e :: Enters(k, c, run, r, s, equity, o, x, e) && OpenedBy(c, r, s, e, b)
                      && x - DUST - HALF_QUANTUM <= b.stake <= x + HALF_QUANTUM
                      && b.shares > 0.0 && b.entryPrice == b.stake / b.shares
  }

  lemma SameAmount(t: Strategy, s: Signal, run: Running, groupOpen: real, equity: real, o: Overrides, x: real)
    requires x > 0.0 && Allowed(t, s, run, groupOpen, equity, o, x)
    requires forall y | y > x :: !Allowed(t, s, run, groupOpen, equity, o, y)
    ensures x == Requested(t, BaseStake(t, s, run.bankroll, o), run, groupOpen, equity)
  {
    hide Requested, BaseStake, Allowed;
    var z := Requested(t, BaseStake(t, s, run.bankroll, o), run, groupOpen, equity);
    RequestedMeaning(t, s, run, groupOpen, equity, o, x);
    if z > x { RequestedMeaning(t, s, run, groupOpen, equity, o, z); }
  }

  lemma EntersPlans(k: Book, c: Account, run: Running, r: Request, s: Signal, equity: real, o: Overrides,
                    x: real, e: Execution)
    requires Enters(k, c, run, r, s, equity, o, x, e)
    requires x == Requested(c.strategy, BaseStake(c.strategy, s, run.bankroll, o), run,
                            Exposure(k.bets, c.name, ByGroup(s.group)), equity)
    ensures var b := PlanOf(k, c, run, r, s, equity, o);
            b.Some? && !Taken(k.bets, b.value)
  {
    hide Requested, BaseStake, Allowed, Clears, Profitable, Tradeable, Open, Exposure, BuyResult, BookLevels;
    OpenMeaning(c.strategy, r, s);
    ProfitableMeaning(c.strategy, r, s, e.effective.value);
  }

  lemma PlansEnters(k: Book, c: Account, run: Running, r: Request, s: Signal, equity: real, o: Overrides)
    requires PlanOf(k, c, run, r, s, equity, o).Some?
    ensures var b := PlanOf(k, c, run, r, s, equity, o).value;
      !Taken(k.bets, b) ==>
        exists x, e :: Enters(k, c, run, r, s, equity, o, x, e) && OpenedBy(c, r, s, e, b)
                       && x - DUST - HALF_QUANTUM <= b.stake <= x + HALF_QUANTUM
                       && b.shares > 0.0 && b.entryPrice == b.stake / b.shares
  {
    hide Requested, BaseStake, Allowed, Clears, Profitable, Tradeable, Open, Exposure, BuyResult, BookLevels;
    var t, groupOpen := c.strategy, Exposure(k.bets, c.name, ByGroup(s.group));
    var x := Requested(t, BaseStake(t, s, run.bankroll, o), run, groupOpen, equity);
    var b := PlanOf(k, c, run, r, s, equity, o).value;
    OpenMeaning(t, r, s);
    Largest(t, s, run, groupOpen, equity, o, x);
    QuotedFill(t, r, s, x);
    var q := r.quotes[s.token];
    var e := BuyResult(BookLevels(q.asks), OrderOn(q, x)).value;
    ProfitableMeaning(t, r, s, e.effective.value);
    BuyCost(BookLevels(q.asks), OrderOn(q, x), e);
    if !Taken(k.bets, b) {
      forall i | 0 <= i < |k.bets| ensures !SameBet(k.bets[i], c, r, s) { assert !SameKey(k.bets[i], b); }
      assert Enters(k, c, run, r, s, equity, o, x, e) && OpenedBy(c, r, s, e, b);
    }
  }

  lemma QuotedFill(t: Strategy, r: Request, s: Signal, x: real)
    requires Tradeable(t, r, s)
    ensures s.token in r.quotes
  {
  }

  // ---- a whole call ----------------------------------------------------------------------

  /** The signal passes the filter that is the same for all accounts. */
  predicate Worthwhile(r: Request, s: Signal) {
    var edge := if s.token in r.probs then r.probs[s.token] - s.price else s.edge;
    && s.token != "" && s.polymarket && 0.05 < s.price < 0.95
    && (if s.token in r.probs then 0.0 < r.probs[s.token] < 1.0 else s.confidence > 0.0)
    && edge > 0.0 && edge >= s.requiredEdge
  }

  lemma WorthwhileMeaning(r: Request, s: Signal)
    ensures EntryCandidate(r, s) <==> Worthwhile(r, s)
  {
  }

  /** The filter keeps the worthwhile signals in their order. */
  lemma {:induction false} CandidatesSplit(r: Request, a: seq<Signal>, b: seq<Signal>)
    ensures Candidates(r, a + b) == Candidates(r, a) + Candidates(r, b)
    ensures |a| == 1 ==> Candidates(r, a) == if Worthwhile(r, a[0]) then a else []
    decreases |b|
  {
    hide EntryCandidate, Worthwhile;
    if |a| == 1 {
      WorthwhileMeaning(r, a[0]);
      assert a[..0] == [] && Candidates(r, a[..0]) == [];
    }
    if b == [] {
      assert a + b == a;
    } else {
      var n := |b| - 1;
      CandidatesSplit(r, a, b[..n]);
      assert (a + b)[..|a + b| - 1] == a + b[..n];
    }
  }

  lemma {:induction false} CandidatesWorthwhile(r: Request, signals: seq<Signal>)
    ensures forall s :: s in Candidates(r, signals) <==> s in signals && Worthwhile(r, s)
  {
    hide EntryCandidate, Worthwhile;
    if signals != [] {
      var n := |signals| - 1;
      CandidatesWorthwhile(r, signals[..n]);
      WorthwhileMeaning(r, signals[n]);
      assert signals == signals[..n] + [signals[n]];
    }
  }

  /** A bet that some account served by the call could make on some signal of the call. */
  ghost predicate SoundFor(c: Account, r: Request, s: Signal, b: Bet) {
    && c.active && c.strategy.name !in r.barred && s in r.signals && Worthwhile(r, s) && Open(c.strategy, r, s)
    && Profitable(c.strategy, r, s, b.entryPrice)
    && b.account == c.name && b.event == r.event && b.sport == r.sport && b.market == s.market
    && b.outcome == s.outcome && b.group == s.group && b.token == s.token && b.placedAt == r.now && b.status.Open?
  }

  ghost predicate Sound(accounts: seq<Account>, r: Request, b: Bet) {
    exists a, s | 0 <= a < |accounts| :: SoundFor(accounts[a], r, s, b)
  }

  /** The same accounts, but for their bankrolls. */
  ghost predicate SameRules(a: seq<Account>, b: seq<Account>) {
    |a| == |b| && forall i | 0 <= i < |a| :: b[i] == a[i].(bankroll := b[i].bankroll)
  }

  ghost predicate Appends(k: Book, after: Book, r: Request) {
    && SameRules(k.accounts, after.accounts) && k.bets <= after.bets
    && forall i | |k.bets| <= i < |after.bets| :: Sound(k.accounts, r, after.bets[i])
  }

  lemma SoundAlike(a: seq<Account>, b: seq<Account>, r: Request, bet: Bet)
    requires SameRules(a, b) && Sound(b, r, bet)
    ensures Sound(a, r, bet)
  {
    hide Open, Profitable, Worthwhile;
    var i, s :| 0 <= i < |b| && SoundFor(b[i], r, s, bet);
    assert SoundFor(a[i], r, s, bet);
  }

  lemma AppendsTrans(k: Book, mid: Book, after: Book, r: Request)
    requires Appends(k, mid, r) && Appends(mid, after, r)
    ensures Appends(k, after, r)
  {
    hide Sound;
    forall i | |k.bets| <= i < |after.bets| ensures Sound(k.accounts, r, after.bets[i]) {
      if i < |mid.bets| {
        assert after.bets[i] == mid.bets[i];
      } else {
        SoundAlike(k.accounts, mid.accounts, r, after.bets[i]);
      }
    }
  }

  lemma SignalAppends(k: Book, a: nat, run: Running, r: Request, s: Signal, equity: real, o: Overrides)
    requires a < |k.accounts| && k.accounts[a].active && k.accounts[a].strategy.name !in r.barred
    requires s in r.signals && Worthwhile(r, s)
    ensures Appends(k, PlaceSignal(k, a, run, r, s, equity, o).0, r)
  {
    hide PlaceSignal, Open, Profitable, Worthwhile, Allowed, FillsAs, Exposure;
    SignalEnters(k, a, run, r, s, equity, o);
    var (after, next) := PlaceSignal(k, a, run, r, s, equity, o);
    if |after.bets| > |k.bets| {
      var b := after.bets[|k.bets|];
      assert SoundFor(k.accounts[a], r, s, b);
    }
  }

  lemma {:induction false} SignalsAppend(k: Book, a: nat, run: Running, r: Request, signals: seq<Signal>,
                                         equity: real, o: Overrides)
    requires a < |k.accounts| && k.accounts[a].active && k.accounts[a].strategy.name !in r.barred
    requires forall s | s in signals :: s in r.signals && Worthwhile(r, s)
    ensures Appends(k, PlaceSignals(k, a, run, r, signals, equity, o).0, r)
  {
    hide PlaceSignal, Worthwhile, Sound;
    if signals != [] {
      var n := |signals| - 1;
      SignalsAppend(k, a, run, r, signals[..n], equity, o);
      var (mid, running) := PlaceSignals(k, a, run, r, signals[..n], equity, o);
      SignalAppends(mid, a, running, r, signals[n], equity, o);
      AppendsTrans(k, mid, PlaceSignals(k, a, run, r, signals, equity, o).0, r);
    }
  }

  lemma AccountAppends(k: Book, a: nat, r: Request, o: Overrides)
    requires a < |k.accounts|
    ensures Appends(k, PlaceAccount(k, a, r, o), r)
  {
    hide PlaceSignals, Worthwhile, Sound, Opening;
    CandidatesWorthwhile(r, r.signals);
    hide Candidates;
    if k.accounts[a].active && k.accounts[a].strategy.name !in r.barred {
      var run := Opening(k, a, r);
      SignalsAppend(k, a, run, r, Candidates(r, r.signals), run.bankroll + run.total, o);
    }
  }

  lemma {:induction false} PlaceToAppends(k: Book, r: Request, o: seq<Overrides>, n: nat)
    requires n <= |k.accounts| && n <= |o|
    ensures Appends(k, PlaceTo(k, r, o, n), r)
  {
    hide PlaceAccount, Sound;
    if n > 0 {
      PlaceToAppends(k, r, o, n - 1);
      AccountAppends(PlaceTo(k, r, o, n - 1), n - 1, r, o[n - 1]);
      AppendsTrans(k, PlaceTo(k, r, o, n - 1), PlaceTo(k, r, o, n), r);
    }
  }

  /**
   Every bet that a call opens is one that an active account not barred from the event makes on a signal that
   is worthwhile, open to it, and still profitable to it at the price actually paid.
   */
  lemma EntriesSound(k: Book, r: Request, o: seq<Overrides>)
    requires |o| == |k.accounts|
    ensures Appends(k, Place(k, r, o), r)
  {
    PlaceToAppends(k, r, o, |k.accounts|);
  }
}
