/**
 A whole call that opens bets, step by step (app/accounts.py, place): which accounts are served, which
 signals each is served and in what order, and from which cash and exposure it starts.
 */
module EntryTrace {
  import opened Accounts
  import opened Entry
  import opened Options
  import opened Ordering
  import opened Placement

  // ---- exposure --------------------------------------------------------------------------

  /** The bet counts towards the scope. */
  ghost predicate CountsIn(b: Bet, s: Scope) {
    s == Total || s == ByEvent(b.event) || s == BySport(b.sport) || s == ByGroup(b.group)
  }

  /** Exposure adds up row by row, and a row adds its stake while it is the account's open bet in the scope. */
  lemma {:induction false} ExposureMeaning(a: seq<Bet>, b: seq<Bet>, name: string, s: Scope)
    ensures Exposure(a + b, name, s) == Exposure(a, name, s) + Exposure(b, name, s)
    ensures |a| == 1 ==>
              Exposure(a, name, s)
              == if a[0].account == name && a[0].status == Status.Open && CountsIn(a[0], s) then a[0].stake else 0.0
    decreases |b|
  {
    if b == [] {
      assert a + b == a;
      if |a| == 1 {
        assert a == [] + [a[0]];
        ExposureAppend([], a[0], name, s);
      }
    } else {
      var n := |b| - 1;
      ExposureMeaning(a, b[..n], name, s);
      assert a + b == (a + b[..n]) + [b[n]] && b == b[..n] + [b[n]];
      ExposureAppend(a + b[..n], b[n], name, s);
      ExposureAppend(b[..n], b[n], name, s);
    }
  }

  // ---- one account -----------------------------------------------------------------------

  /** The tables and the running totals between two signals. */
  datatype Stage = Stage(book: Book, run: Running)

  /** One signal served: the bet of the largest allowed amount is entered if there is one, else nothing happens. */
  ghost predicate Serves(g: Stage, h: Stage, a: nat, r: Request, s: Signal, equity: real, o: Overrides) {
    && a < |g.book.accounts|
    && if exists x, e :: Enters(g.book, g.book.accounts[a], g.run, r, s, equity, o, x, e)
       then |h.book.bets| == |g.book.bets| + 1
            && Entered(g.book, a, g.run, r, s, equity, o, h.book, h.run, h.book.bets[|g.book.bets|])
       else h == g
  }

  /** The positions of the worthwhile signals among the first n, in their order. */
  ghost predicate Positions(at: seq<nat>, r: Request, signals: seq<Signal>) {
    && (forall i, j | 0 <= i < j < |at| :: at[i] < at[j])
    && (forall i | 0 <= i < |at| :: at[i] < |signals|)
    && (forall j | 0 <= j < |signals| :: Worthwhile(r, signals[j]) <==> j in at)
  }

  /** The stages an account goes through while the signals at these positions are served in turn. */
  ghost predicate Served(stages: seq<Stage>, at: seq<nat>, a: nat, r: Request, signals: seq<Signal>, equity: real,
                         o: Overrides) {
    && |stages| == |at| + 1
    && forall i | 0 <= i < |at| ::
         at[i] < |signals| && Serves(stages[i], stages[i + 1], a, r, signals[at[i]], equity, o)
  }

  lemma SignalServes(k: Book, a: nat, run: Running, r: Request, s: Signal, equity: real, o: Overrides)
    requires a < |k.accounts|
    ensures var (after, next) := PlaceSignal(k, a, run, r, s, equity, o);
            Serves(Stage(k, run), Stage(after, next), a, r, s, equity, o)
  {
    hide PlaceSignal, Enters, Entered;
    SignalEnters(k, a, run, r, s, equity, o);
  }

  /** One more signal: kept if it is worthwhile, and then served after the others. */
  lemma OneMoreSignal(k: Book, a: nat, run: Running, r: Request, signals: seq<Signal>, equity: real, o: Overrides)
    requires a < |k.accounts| && signals != []
    ensures var n := |signals| - 1;
      var (mid, here) := PlaceSignals(k, a, run, r, Candidates(r, signals[..n]), equity, o);
      PlaceSignals(k, a, run, r, Candidates(r, signals), equity, o)
      == if Worthwhile(r, signals[n]) then PlaceSignal(mid, a, here, r, signals[n], equity, o) else (mid, here)
  {
    hide PlaceSignal, Worthwhile, EntryCandidate;
    var n := |signals| - 1;
    var kept := Candidates(r, signals[..n]);
    WorthwhileMeaning(r, signals[n]);
    var more := kept + [signals[n]];
    assert kept + [] == kept && Candidates(r, signals) == if Worthwhile(r, signals[n]) then more else kept;
    assert more[..|more| - 1] == kept && more[|more| - 1] == signals[n];
  }

  lemma {:induction false} SignalsServe(k: Book, a: nat, run: Running, r: Request, signals: seq<Signal>, equity: real,
                                        o: Overrides)
    returns (at: seq<nat>, stages: seq<Stage>)
    requires a < |k.accounts|
    ensures |stages| == |at| + 1 && Positions(at, r, signals) && Served(stages, at, a, r, signals, equity, o)
    ensures stages[0] == Stage(k, run)
    ensures var (after, next) := PlaceSignals(k, a, run, r, Candidates(r, signals), equity, o);
            stages[|at|] == Stage(after, next)
  {
    hide PlaceSignal, Worthwhile, EntryCandidate, Serves, Served, Positions;
    if signals == [] {
      at, stages := [], [Stage(k, run)];
      NothingServed(stages[0], a, r, equity, o);
    } else {
      hide PlaceSignals, Candidates;
      var n := |signals| - 1;
      at, stages := SignalsServe(k, a, run, r, signals[..n], equity, o);
      ServedLonger(stages, at, a, r, signals, equity, o);
      OneMoreSignal(k, a, run, r, signals, equity, o);
      if Worthwhile(r, signals[n]) {
        var (mid, here) := PlaceSignals(k, a, run, r, Candidates(r, signals[..n]), equity, o);
        SignalServes(mid, a, here, r, signals[n], equity, o);
        var (after, next) := PlaceSignal(mid, a, here, r, signals[n], equity, o);
        PositionsGrow(at, r, signals);
        ServedMore(stages, Stage(after, next), at, a, r, signals, equity, o);
        at, stages := at + [n], stages + [Stage(after, next)];
      } else {
        PositionsStay(at, r, signals);
      }
    }
  }

  lemma NothingServed(g: Stage, a: nat, r: Request, equity: real, o: Overrides)
    ensures Served([g], [], a, r, [], equity, o) && Positions([], r, [])
  {
  }

  lemma ServedLonger(stages: seq<Stage>, at: seq<nat>, a: nat, r: Request, signals: seq<Signal>, equity: real,
                     o: Overrides)
    requires signals != [] && Served(stages, at, a, r, signals[..|signals| - 1], equity, o)
    ensures Served(stages, at, a, r, signals, equity, o)
  {
    hide Serves;
    var before := signals[..|signals| - 1];
    forall i | 0 <= i < |at|
      ensures at[i] < |signals| && Serves(stages[i], stages[i + 1], a, r, signals[at[i]], equity, o)
    {
      assert at[i] < |before| && Serves(stages[i], stages[i + 1], a, r, before[at[i]], equity, o);
    }
  }

  lemma ServedMore(stages: seq<Stage>, h: Stage, at: seq<nat>, a: nat, r: Request, signals: seq<Signal>,
                   equity: real, o: Overrides)
    requires signals != [] && Served(stages, at, a, r, signals, equity, o)
    requires Serves(stages[|at|], h, a, r, signals[|signals| - 1], equity, o)
    ensures Served(stages + [h], at + [|signals| - 1], a, r, signals, equity, o)
  {
    hide Serves;
  }

  lemma PositionsGrow(at: seq<nat>, r: Request, signals: seq<Signal>)
    requires signals != [] && Positions(at, r, signals[..|signals| - 1]) && Worthwhile(r, signals[|signals| - 1])
    ensures Positions(at + [|signals| - 1], r, signals)
  {
    hide Worthwhile;
    assert forall j | 0 <= j < |signals| - 1 :: signals[..|signals| - 1][j] == signals[j];
  }

  lemma PositionsStay(at: seq<nat>, r: Request, signals: seq<Signal>)
    requires signals != [] && Positions(at, r, signals[..|signals| - 1]) && !Worthwhile(r, signals[|signals| - 1])
    ensures Positions(at, r, signals)
  {
    hide Worthwhile;
    assert forall j | 0 <= j < |signals| - 1 :: signals[..|signals| - 1][j] == signals[j];
  }

  /**
   What serving account a does to the tables: nothing unless it is active and its allow-list admits the event;
   otherwise all worthwhile signals are served in order from its cash and its open stakes, against the equity
   it had at the start.
   */
  ghost predicate AccountServed(k: Book, after: Book, a: nat, r: Request, o: Overrides) {
    && a < |k.accounts|
    && var c := k.accounts[a];
       var open := Exposure(k.bets, c.name, Total);
       if c.active && c.strategy.name !in r.barred
       then exists at, stages: seq<Stage> ::
              && Positions(at, r, r.signals) && Served(stages, at, a, r, r.signals, c.bankroll + open, o)
              && stages[0] == Stage(k, Running(c.bankroll, open, Exposure(k.bets, c.name, ByEvent(r.event)),
                                               Exposure(k.bets, c.name, BySport(r.sport))))
              && stages[|at|].book == after
       else after == k
  }

  lemma AccountServes(k: Book, a: nat, r: Request, o: Overrides)
    requires a < |k.accounts|
    ensures AccountServed(k, PlaceAccount(k, a, r, o), a, r, o)
  {
    hide PlaceSignals, Positions, Candidates, Exposure, Serves;
    var c := k.accounts[a];
    if c.active && c.strategy.name !in r.barred {
      var run := Opening(k, a, r);
      var at, stages := SignalsServe(k, a, run, r, r.signals, run.bankroll + run.total, o);
      assert Served(stages, at, a, r, r.signals, c.bankroll + Exposure(k.bets, c.name, Total), o);
    }
  }

  // ---- all accounts ----------------------------------------------------------------------

  /** The tables before, between and after the accounts, served once each in row order. */
  ghost predicate AllServed(books: seq<Book>, r: Request, o: seq<Overrides>) {
    |books| == |o| + 1 && forall a | 0 <= a < |o| :: AccountServed(books[a], books[a + 1], a, r, o[a])
  }

  /** A call serves every account in row order, each on the tables the one before left. */
  lemma CallServes(k: Book, r: Request, o: seq<Overrides>)
    requires |o| == |k.accounts|
    ensures exists books :: AllServed(books, r, o) && books[0] == k && books[|o|] == Place(k, r, o)
  {
    hide PlaceAccount, AccountServed;
    var books := seq(|o| + 1, n requires 0 <= n <= |o| => PlaceTo(k, r, o, n));
    forall a | 0 <= a < |o| ensures AccountServed(books[a], books[a + 1], a, r, o[a]) {
      AccountServes(PlaceTo(k, r, o, a), a, r, o[a]);
    }
    assert AllServed(books, r, o);
  }
}
