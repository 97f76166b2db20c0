/**
 When an order is filled, and with what, in the order's and the book's own numbers (app/execution.py,
 simulate_buy and simulate_sell): each refusal under its own condition, fills exactly where the depth is.
 */
module FillOutcome {
  import opened Execution
  import opened Options
  import opened Ordering
  import opened RealSums
  import opened Sale

  // ---- fees ------------------------------------------------------------------------------

  /** The fee of one share is the rate times p(1 - p), so nothing at either end and most in the middle. */
  lemma FeeCurve(p: real, rate: real)
    ensures FeePerShare(p, rate) == rate * (p - p * p) && FeePerShare(p, rate) == FeePerShare(1.0 - p, rate)
    ensures AllIn(p, rate) - p == FeePerShare(p, rate) == p - NetPrice(p, rate)
  {
    assert rate * p * (1.0 - p) == rate * (p - p * p);
    assert rate * (1.0 - p) * (1.0 - (1.0 - p)) == rate * ((1.0 - p) * p);
  }

  /** n hundred-thousandths are the amount q nearest to v, and of two such the even one. */
  predicate NearestUnits(v: real, q: real, n: int) {
    && q * 100000.0 == n as real && -0.5 <= v * 100000.0 - n as real <= 0.5
    && (v * 100000.0 - n as real == 0.5 || v * 100000.0 - n as real == -0.5 ==> n % 2 == 0)
  }

  /** A fee is rounded to the nearest multiple of a hundred-thousandth, halves to even. */
  lemma QuantizeNearest(v: real)
    ensures exists n :: NearestUnits(v, Quantize(v), n)
  {
    var units := v * 100000.0;
    var below := units.Floor;
    var rest := units - below as real;
    var n := if rest < 0.5 || (rest == 0.5 && below % 2 == 0) then below else below + 1;
    assert NearestUnits(v, Quantize(v), n);
  }

  // ---- the metadata checks ---------------------------------------------------------------

  predicate Trading(o: Order) {
    !o.identityAmbiguous && o.active && !o.resolved && !o.restricted && o.accepting
  }

  predicate DepthKnown(o: Order) { Trading(o) && o.depthComplete }

  predicate FeeKnown(o: Order) { DepthKnown(o) && o.feeRate.Some? }

  predicate TickValid(o: Order) { o.tick.None? || 0.0 < o.tick.value < 1.0 }

  predicate MinimumValid(o: Order) { o.minimum.None? || o.minimum.value > 0.0 }

  predicate Multiple(price: real, tick: real, n: int) { price == n as real * tick }

  ghost predicate OnGrid(price: real, tick: real) { exists n :: Multiple(price, tick, n) }

  /** Every level that holds something is priced at a multiple of the tick. */
  ghost predicate OnTick(levels: seq<Level>, tick: Option<real>) {
    tick.Some? ==> forall l | l in levels && l.size > 0.0 :: OnGrid(l.price, tick.value)
  }

  lemma TickMultiple(price: real, tick: real)
    requires tick > 0.0
    ensures (price / tick == (price / tick).Floor as real) <==> OnGrid(price, tick)
  {
    var q := price / tick;
    Quotient(price, tick, q);
    if q == q.Floor as real { assert Multiple(price, tick, q.Floor); }
    if n :| Multiple(price, tick, n) { SameFactor(q, n as real, tick); }
  }

  lemma AlignedMeaning(levels: seq<Level>, sorted: seq<Level>, tick: Option<real>)
    requires tick.Some? ==> tick.value > 0.0
    requires forall l :: l in sorted <==> l in levels && l.size > 0.0
    ensures Aligned(sorted, tick) <==> OnTick(levels, tick)
  {
    hide OnGrid;
    if tick.Some? {
      forall i | 0 <= i < |sorted|
        ensures (sorted[i].price / tick.value == (sorted[i].price / tick.value).Floor as real)
           <==> OnGrid(sorted[i].price, tick.value)
      {
        TickMultiple(sorted[i].price, tick.value);
      }
      GridOfSorted(levels, sorted, tick.value);
    }
  }

  lemma GridOfSorted(levels: seq<Level>, sorted: seq<Level>, tick: real)
    requires forall l :: l in sorted <==> l in levels && l.size > 0.0
    ensures (forall i | 0 <= i < |sorted| :: OnGrid(sorted[i].price, tick)) <==> OnTick(levels, Some(tick))
  {
    hide OnGrid;
    forall i | 0 <= i < |sorted| ensures sorted[i] in levels && sorted[i].size > 0.0 { assert sorted[i] in sorted; }
    forall l | l in levels && l.size > 0.0 ensures exists i :: 0 <= i < |sorted| && sorted[i] == l {
      assert l in sorted;
    }
  }

  /** The shared checks refuse at the first that fails, each with its own reason. */
  lemma RefusalMeaning(o: Order, limit: Option<real>)
    ensures var r := Refusal(o, limit);
      var charged := FeeKnown(o) && 0.0 <= o.feeRate.value && (limit.Some? ==> o.feeRate.value <= limit.value);
      && (r == Some(AmbiguousIdentity) <==> o.identityAmbiguous)
      && (r == Some(MarketClosed) <==> !o.identityAmbiguous && !Trading(o))
      && (r == Some(DepthUnavailable) <==> Trading(o) && !o.depthComplete)
      && (r == Some(FeeUnavailable) <==> DepthKnown(o) && o.feeRate.None?)
      && (r == Some(InvalidFeeRate) <==> FeeKnown(o) && !charged)
      && (r == Some(InvalidTick) <==> charged && !TickValid(o))
      && (r == Some(InvalidMinimum) <==> charged && TickValid(o) && !MinimumValid(o))
      && (r.None? <==> charged && TickValid(o) && MinimumValid(o))
  {
  }

  // ---- a buy -----------------------------------------------------------------------------

  /** Everything but the depth is in order. */
  ghost predicate BuyReady(asks: seq<Level>, o: Order) {
    && FeeKnown(o) && 0.0 <= o.feeRate.value <= 1.0 && TickValid(o) && MinimumValid(o) && OnTick(asks, o.tick)
  }

  /** Nothing was bought, after looking at so many levels. */
  predicate NothingBought(o: Order, e: Execution, levels: nat) {
    && e.requested == o.amount && e.shares == e.filledCash == e.fee == 0.0 && e.effective.None? && e.vwap.None?
    && !e.complete && e.levels == levels
  }

  /** A book that is not in order is refused with nothing bought, for the first reason there is. */
  lemma BuyRefused(asks: seq<Level>, o: Order)
    requires ValidLevels(asks)
    ensures BuyResult(asks, o).Raised? <==> o.amount <= 0.0
    ensures o.amount <= 0.0 ==> BuyResult(asks, o) == Raised(AmountNotPositive)
    ensures o.amount > 0.0 && !BuyReady(asks, o) ==> var e := BuyResult(asks, o).value;
      && NothingBought(o, e, 0)
      && e.reason == if o.identityAmbiguous then AmbiguousIdentity
                     else if !Trading(o) then MarketClosed
                     else if !o.depthComplete then DepthUnavailable
                     else if o.feeRate.None? then FeeUnavailable
                     else if !(0.0 <= o.feeRate.value <= 1.0) then InvalidFeeRate
                     else if !TickValid(o) then InvalidTick
                     else if !MinimumValid(o) then InvalidMinimum
                     else MisalignedPrice
  {
    hide BuyWalk, Asks, Aligned, Refusal, Settle, OnTick;
    AsksReady(asks);
    RefusalMeaning(o, Some(1.0));
    if Refusal(o, Some(1.0)).None? {
      AlignedMeaning(asks, Asks(asks), o.tick);
      WalkShares(Asks(asks), o.feeRate.value, o.amount, |Asks(asks)|);
      SettleReturns(o, WalkOf(asks, o));
    }
  }

  lemma SettleReturns(o: Order, f: Fill)
    requires f.shares >= 0.0
    ensures Settle(o, f).Returned?
  {
  }

  /** The book's depth pays for the whole amount, up to the dust of a hundred-millionth. */
  ghost predicate Covers(asks: seq<Level>, o: Order)
    requires o.feeRate.Some?
  {
    Asks(asks) != [] && Depth(Asks(asks), o.feeRate.value) >= o.amount - 0.00000001
  }

  lemma CoversExactly(asks: seq<Level>, o: Order)
    requires ValidLevels(asks) && o.amount > 0.0 && Refusal(o, Some(1.0)).None?
    ensures WalkOf(asks, o).remaining == 0.0 <==> Covers(asks, o)
    ensures WalkOf(asks, o).shares >= 0.0
    ensures WalkOf(asks, o).shares == 0.0 <==> Asks(asks) == []
    ensures WalkOf(asks, o).remaining != 0.0 ==>
              WalkOf(asks, o).shares == SumTo(Sizes(Asks(asks)), |Asks(asks)|)
              && WalkOf(asks, o).cost == Apply(Prices(Asks(asks)), Sizes(Asks(asks)), |Asks(asks)|)
  {
    hide AllIn, Asks, Refusal, Apply, SumTo, BuyWalk;
    AsksReady(asks);
    var levels, rate := Asks(asks), o.feeRate.value;
    var n, f := |levels|, BuyWalk(levels, rate, o.amount, |levels|);
    BuyWalkFacts(levels, rate, o.amount, n);
    BuyWalkStart(levels, rate, o.amount);
    SharesPositive(f.takes);
    if levels == [] {
      NoTakes(f.takes, levels);
    } else {
      BuyCompletes(levels, rate, o.amount);
      if f.remaining != 0.0 {
        SumPrefix(f.takes, Sizes(levels), Prices(levels), n);
        SizesPositive(levels, n);
      }
    }
  }

  lemma NoTakes(takes: seq<real>, levels: seq<Level>)
    requires takes == [] && levels == []
    ensures SumTo(takes, 0) == 0.0 == SumTo(Sizes(levels), 0)
    ensures Apply(Prices(levels), takes, 0) == 0.0 == Apply(Prices(levels), Sizes(levels), 0)
  {
  }

  lemma {:induction false} SizesPositive(levels: seq<Level>, k: nat)
    requires k <= |levels| && forall i | 0 <= i < |levels| :: levels[i].size > 0.0
    ensures k > 0 ==> SumTo(Sizes(levels), k) > 0.0
  {
    if k > 1 { SizesPositive(levels, k - 1); }
  }

  /** Shares below the market's minimum order. */
  predicate TooSmall(o: Order, shares: real) { o.minimum.Some? && shares < o.minimum.value }

  /**
   A buy in order is filled in full exactly when the depth covers it and the shares reach the minimum. Under
   the reject policy a thin book gives nothing; otherwise it gives all it holds, if that is enough.
   */
  lemma BuyFilled(asks: seq<Level>, o: Order)
    requires ValidLevels(asks) && o.amount > 0.0 && BuyReady(asks, o)
    ensures Refusal(o, Some(1.0)).None? && BuyResult(asks, o).Returned?
    ensures var e, walk := BuyResult(asks, o).value, WalkOf(asks, o);
      var empty, covered := (forall l | l in asks :: l.size <= 0.0), Covers(asks, o);
      && (e.reason == InsufficientDepth <==> !covered && !o.allowPartial)
      && (e.reason == NoDepth <==> !covered && o.allowPartial && empty)
      && (e.reason == BelowMinimum <==> !empty && (covered || o.allowPartial) && TooSmall(o, walk.shares))
      && (e.reason == FullFill <==> e.complete) && (e.complete <==> covered && !TooSmall(o, walk.shares))
      && (e.reason == PartialFill <==> !covered && o.allowPartial && !empty && !TooSmall(o, walk.shares))
      && (e.effective.Some? <==> e.reason == FullFill || e.reason == PartialFill)
      && (e.effective.None? ==> NothingBought(o, e, walk.consumed))
      && (e.reason == PartialFill ==> e.shares == SumTo(Sizes(Asks(asks)), |Asks(asks)|))
      && (e.reason == PartialFill ==>
            e.filledCash - e.fee == Apply(Prices(Asks(asks)), Sizes(Asks(asks)), |Asks(asks)|))
  {
    hide BuyWalk, Asks, Aligned, Refusal, OnTick, Quantize, Covers, SumTo, Apply;
    AsksReady(asks);
    RefusalMeaning(o, Some(1.0));
    AlignedMeaning(asks, Asks(asks), o.tick);
    CoversExactly(asks, o);
    EmptyBook(asks, Asks(asks));
    CoversSome(asks, o);
  }

  lemma CoversSome(asks: seq<Level>, o: Order)
    requires o.feeRate.Some?
    ensures Covers(asks, o) ==> Asks(asks) != []
  {
  }

  lemma EmptyBook(levels: seq<Level>, sorted: seq<Level>)
    requires forall l :: l in sorted <==> l in levels && l.size > 0.0
    ensures sorted == [] <==> forall l | l in levels :: l.size <= 0.0
  {
    if sorted != [] { assert sorted[0] in sorted; }
    if l :| l in levels && l.size > 0.0 { assert l in sorted; }
  }

  /** The fee curve level by level, before rounding. */
  function CurveFees(levels: seq<Level>, rate: real): (c: seq<real>)
    ensures |c| == |levels|
    ensures forall i | 0 <= i < |c| :: c[i] == rate * (levels[i].price - levels[i].price * levels[i].price)
  {
    seq(|levels|, i requires 0 <= i < |levels| => rate * (levels[i].price - levels[i].price * levels[i].price))
  }

  lemma {:induction false} FeesOf(levels: seq<Level>, rate: real, takes: seq<real>, k: nat)
    requires k <= |levels| && k <= |takes|
    ensures Apply(CurveFees(levels, rate), takes, k)
         == Apply(AllIns(levels, rate), takes, k) - Apply(Prices(levels), takes, k)
    ensures Apply(CurveFees(levels, rate), takes, k)
         == Apply(Prices(levels), takes, k) - Apply(NetPrices(levels, rate), takes, k)
  {
    if k == 0 {
      ApplyStart(CurveFees(levels, rate), takes);
    } else {
      hide AllIn, NetPrice, FeePerShare, Apply, Times, CurveFees, AllIns, NetPrices, Prices;
      var i := k - 1;
      FeesOf(levels, rate, takes, i);
      FeeCurve(levels[i].price, rate);
      FeeTerm(CurveFees(levels, rate)[i], AllIns(levels, rate)[i], levels[i].price, NetPrices(levels, rate)[i],
              takes[i]);
      ApplyStep(CurveFees(levels, rate), takes, i);
      ApplyStep(AllIns(levels, rate), takes, i);
      ApplyStep(Prices(levels), takes, i);
      ApplyStep(NetPrices(levels, rate), takes, i);
    }
  }

  lemma FeeTerm(fee: real, allIn: real, price: real, net: real, take: real)
    requires allIn == price + fee && net == price - fee
    ensures Times(fee, take) == Times(allIn, take) - Times(price, take) == Times(price, take) - Times(net, take)
  {
    assert (price + fee) * take == price * take + fee * take;
    assert (price - fee) * take == price * take - fee * take;
  }

  /** The takes empty every level before m, and touch none after it. */
  ghost predicate FromFront(levels: seq<Level>, takes: seq<real>) {
    exists m :: 0 <= m <= |levels| && FrontLoaded(levels, takes, m)
  }

  /** The numbers of a fill: takes from the cheapest asks on, their cost, their fees rounded once, the two prices. */
  lemma BuyNumbers(asks: seq<Level>, o: Order, e: Execution)
    requires ValidLevels(asks) && BuyResult(asks, o) == Returned(e) && e.effective.Some?
    ensures o.feeRate.Some? && e.requested == o.amount && e.shares > 0.0
    ensures e.effective == Some(e.filledCash / e.shares) && e.vwap == Some((e.filledCash - e.fee) / e.shares)
    ensures exists takes ::
      var levels := Asks(asks);
      && Allocation(levels, takes) && FromFront(levels, takes)
      && e.shares == SumTo(takes, |takes|) && e.filledCash - e.fee == Apply(Prices(levels), takes, |takes|)
      && e.fee == Quantize(Apply(CurveFees(levels, o.feeRate.value), takes, |takes|))
      && e.levels == Positives(takes, |takes|)
  {
    hide BuyWalk, Asks, Aligned, Refusal, Quantize, SumTo, Apply, AllIns, Prices, CurveFees;
    AsksReady(asks);
    FillIsWalk(asks, o, e);
    SettledNumbers(asks, o, e);
    var levels, rate := Asks(asks), o.feeRate.value;
    var f := BuyWalk(levels, rate, o.amount, |levels|);
    BuyWalkFacts(levels, rate, o.amount, |levels|);
    FeesOf(levels, rate, f.takes, |levels|);
    assert Allocation(levels, f.takes) && FromFront(levels, f.takes);
  }

  lemma SettledNumbers(asks: seq<Level>, o: Order, e: Execution)
    requires ValidLevels(asks) && BuyResult(asks, o) == Returned(e) && e.effective.Some?
    ensures Refusal(o, Some(1.0)).None? && e.requested == o.amount && e.shares > 0.0
    ensures var f := WalkOf(asks, o);
      && e.shares == f.shares && e.fee == Quantize(f.fee) && e.levels == f.consumed && e.filledCash == f.cost + e.fee
      && e.vwap == Some(f.cost / f.shares) && e.effective == Some((f.cost + e.fee) / f.shares)
  {
    hide BuyWalk, Asks, Aligned, Refusal, Quantize;
    AsksReady(asks);
    WalkShares(Asks(asks), o.feeRate.value, o.amount, |Asks(asks)|);
  }

  // ---- a sale ----------------------------------------------------------------------------

  /** Everything but the depth is in order. */
  ghost predicate SaleReady(bids: seq<Level>, o: Order) {
    && FeeKnown(o) && 0.0 <= o.feeRate.value && TickValid(o) && MinimumValid(o) && !TooSmall(o, o.amount)
    && OnTick(bids, o.tick)
  }

  /** Nothing was sold. */
  predicate NothingSold(o: Order, s: SaleResult) {
    && s.requested == o.amount && s.filled == s.gross == s.net == s.fee == 0.0 && s.effective.None? && s.vwap.None?
    && !s.complete
  }

  /** A sale that is not in order is refused with nothing sold, for the first reason there is. */
  lemma SaleRefused(bids: seq<Level>, o: Order)
    requires ValidLevels(bids)
    ensures o.amount <= 0.0 <==> SellResult(bids, o) == Raised(AmountNotPositive)
    ensures o.amount > 0.0 && !SaleReady(bids, o) ==>
      SellResult(bids, o).Returned? && var s := SellResult(bids, o).value;
      && NothingSold(o, s)
      && s.reason == if o.identityAmbiguous then AmbiguousIdentity
                     else if !Trading(o) then MarketClosed
                     else if !o.depthComplete then DepthUnavailable
                     else if o.feeRate.None? then FeeUnavailable
                     else if o.feeRate.value < 0.0 then InvalidFeeRate
                     else if !TickValid(o) then InvalidTick
                     else if !MinimumValid(o) then InvalidMinimum
                     else if TooSmall(o, o.amount) then BelowMinimum
                     else MisalignedPrice
  {
    hide SellWalk, Bids, Aligned, Refusal, OnTick;
    BidsReady(bids);
    RefusalMeaning(o, None);
    if Refusal(o, None).None? { AlignedMeaning(bids, Bids(bids), o.tick); }
  }

  /** The bids hold all the shares, up to the dust of a hundred-millionth. */
  ghost predicate Absorbs(bids: seq<Level>, o: Order) {
    Bids(bids) != [] && SumTo(Sizes(Bids(bids)), |Bids(bids)|) >= o.amount - 0.00000001
  }

  lemma AbsorbsExactly(bids: seq<Level>, o: Order)
    requires ValidLevels(bids) && o.amount > 0.0 && Refusal(o, None).None?
    ensures var f := SellWalk(Bids(bids), o.feeRate.value, o.amount, |Bids(bids)|);
      && (f.remaining == 0.0 <==> Absorbs(bids, o)) && (f.filled == 0.0 <==> Bids(bids) == [])
      && (f.remaining != 0.0 ==> f.filled == SumTo(Sizes(Bids(bids)), |Bids(bids)|))
  {
    hide Bids, Refusal, Apply, SumTo, FeePerShare, Quantize;
    BidsReady(bids);
    var levels, rate := Bids(bids), o.feeRate.value;
    var n, f := |levels|, SellWalk(levels, rate, o.amount, |levels|);
    SellWalkFacts(levels, rate, o.amount, n);
    if levels == [] {
      NoTakes(f.takes, levels);
    } else {
      SellCompletes(levels, rate, o.amount);
      if f.remaining != 0.0 {
        SumPrefix(f.takes, Sizes(levels), Prices(levels), n);
        SizesPositive(levels, n);
      }
    }
  }

  /**
   A sale in order raises exactly for a rate above one on a book with bids. Otherwise it is complete exactly
   when the bids hold the shares; a thin book gives nothing under the reject policy, and all it holds otherwise.
   */
  lemma SaleFilled(bids: seq<Level>, o: Order)
    requires ValidLevels(bids) && o.amount > 0.0 && SaleReady(bids, o)
    ensures var empty, covered := (forall l | l in bids :: l.size <= 0.0), Absorbs(bids, o);
      && (SellResult(bids, o).Raised? <==> o.feeRate.value > 1.0 && !empty)
      && (SellResult(bids, o).Raised? ==> SellResult(bids, o).reason == FeeRateAboveOne)
      && (SellResult(bids, o).Returned? ==> var s := SellResult(bids, o).value;
            && (s.reason == NoDepth <==> empty)
            && (s.reason == InsufficientDepth <==> !empty && !covered && !o.allowPartial)
            && (s.reason == FullFill <==> s.complete) && (s.complete <==> covered)
            && (s.reason == PartialFill <==> !empty && !covered && o.allowPartial)
            && (s.effective.Some? <==> s.reason == FullFill || s.reason == PartialFill)
            && (s.effective.None? ==> NothingSold(o, s))
            && (s.reason == PartialFill ==> s.filled == SumTo(Sizes(Bids(bids)), |Bids(bids)|)))
  {
    hide SellWalk, Bids, Aligned, Refusal, OnTick, SumTo, Absorbs;
    BidsReady(bids);
    RefusalMeaning(o, None);
    AlignedMeaning(bids, Bids(bids), o.tick);
    AbsorbsExactly(bids, o);
    EmptyBook(bids, Bids(bids));
    AbsorbsSome(bids, o);
  }

  lemma AbsorbsSome(bids: seq<Level>, o: Order)
    ensures Absorbs(bids, o) ==> Bids(bids) != []
  {
  }

  /** The numbers of a sale: takes from the dearest bids on, their gross, fees rounded level by level, the prices. */
  lemma SaleNumbers(bids: seq<Level>, o: Order, s: SaleResult)
    requires ValidLevels(bids) && SellResult(bids, o) == Returned(s) && s.effective.Some?
    ensures o.feeRate.Some? && s.requested == o.amount && s.filled > 0.0 && s.net == s.gross - s.fee
    ensures s.effective == Some(s.net / s.filled) && s.vwap == Some(s.gross / s.filled)
    ensures exists takes ::
      var levels := Bids(bids);
      && Allocation(levels, takes) && FromFront(levels, takes)
      && s.filled == SumTo(takes, |takes|) && s.gross == Apply(Prices(levels), takes, |takes|)
      && s.levels == Positives(takes, |takes|)
      && -HALF_QUANTUM * s.levels as real <= Apply(CurveFees(levels, o.feeRate.value), takes, |takes|) - s.fee
           <= HALF_QUANTUM * s.levels as real
  {
    hide SellWalk, Bids, Aligned, Refusal, SumTo, Apply, Prices, CurveFees, NetPrices, Positives;
    BidsReady(bids);
    var levels, rate := Bids(bids), o.feeRate.value;
    var f := SellWalk(levels, rate, o.amount, |levels|);
    SellWalkFacts(levels, rate, o.amount, |levels|);
    SharesPositive(f.takes);
    FeesOf(levels, rate, f.takes, |levels|);
    assert Allocation(levels, f.takes) && FromFront(levels, f.takes);
  }
}
