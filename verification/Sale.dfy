/** Simulated sales (app/execution.py, simulate_sell) and the round trip of a buy and a sale. */
module Sale {
  import opened Execution
  import opened Options
  import opened Ordering
  import opened RealSums

  datatype Walked = Walked(remaining: real, filled: real, gross: real, fee: real, consumed: nat, takes: seq<real>)

  datatype SaleResult = SaleResult(requested: real, filled: real, gross: real, net: real,
                                   vwap: Option<real>, fee: real, effective: Option<real>,
                                   complete: bool, reason: Reason, levels: nat)

  function SellStep(f: Walked, price: real, size: real, rate: real): Walked {
    var take := Min(size, f.remaining);
    if take <= 0.0 then f.(takes := f.takes + [0.0])
    else Walked(Swept(f.remaining - take), f.filled + take, f.gross + Times(price, take),
                f.fee + Quantize(Times(FeePerShare(price, rate), take)), f.consumed + 1, f.takes + [take])
  }

  function SellWalk(levels: seq<Level>, rate: real, shares: real, k: nat): Walked
    requires k <= |levels|
  {
    if k == 0 then Walked(shares, 0.0, 0.0, 0.0, 0, [])
    else SellStep(SellWalk(levels, rate, shares, k - 1), levels[k - 1].price, levels[k - 1].size, rate)
  }

  /** Proceeds of the takes with the fee curve unrounded. */
  function ExactNet(levels: seq<Level>, rate: real, takes: seq<real>, k: nat): real
    requires k <= |levels| && k <= |takes|
  {
    Apply(NetPrices(levels, rate), takes, k)
  }

  ghost predicate SellFacts(levels: seq<Level>, rate: real, shares: real, k: nat, f: Walked)
    requires k <= |levels|
  {
    && |f.takes| == k
    && (forall i | 0 <= i < k :: 0.0 <= f.takes[i] <= levels[i].size)
    && f.filled == SumTo(f.takes, k) && f.gross == Apply(Prices(levels), f.takes, k) && f.fee >= 0.0
    && f.consumed == Positives(f.takes, k)
    && -HALF_QUANTUM * f.consumed as real <= f.gross - f.fee - ExactNet(levels, rate, f.takes, k)
         <= HALF_QUANTUM * f.consumed as real
    && (f.remaining != 0.0 ==>
          && f.remaining > 0.0 && (k > 0 ==> f.remaining > DUST)
          && f.remaining == shares - f.filled && FrontLoaded(levels, f.takes, k))
    && (f.remaining == 0.0 ==>
          && 0.0 <= shares - f.filled <= DUST && f.filled > 0.0
          && exists m | 0 <= m < k :: FrontLoaded(levels, f.takes, m))
  }

  lemma SplitNet(price: real, rate: real, take: real)
    requires 0.0 < price < 1.0 && rate >= 0.0 && take >= 0.0
    ensures Times(NetPrice(price, rate), take) == Times(price, take) - Times(FeePerShare(price, rate), take)
    ensures Times(FeePerShare(price, rate), take) >= 0.0
  {
    FeeSign(price, rate);
    MulMono(FeePerShare(price, rate), 0.0, take);
  }

  lemma SellPad(levels: seq<Level>, rate: real, shares: real, k: nat, f: Walked)
    requires k < |levels| && ValidLevels(levels) && SellFacts(levels, rate, shares, k, f) && f.remaining == 0.0
    ensures SellFacts(levels, rate, shares, k + 1, f.(takes := f.takes + [0.0]))
  {
    hide NetPrice, Times, SumTo, Apply;
    PositivesPrefix(f.takes, [0.0], k);
    SumExtend(f.takes, 0.0, NetPrices(levels, rate));
    SumExtend(f.takes, 0.0, Prices(levels));
    TimesFacts(NetPrices(levels, rate)[k], 0.0, 0.0);
    TimesFacts(Prices(levels)[k], 0.0, 0.0);
    var m :| 0 <= m < k && FrontLoaded(levels, f.takes, m);
    assert FrontLoaded(levels, f.takes + [0.0], m);
  }

  lemma SellTake(levels: seq<Level>, rate: real, shares: real, k: nat, f: Walked)
    requires k < |levels| && ValidLevels(levels) && rate >= 0.0 && levels[k].size > 0.0
    requires SellFacts(levels, rate, shares, k, f) && f.remaining > 0.0
    ensures SellFacts(levels, rate, shares, k + 1, SellStep(f, levels[k].price, levels[k].size, rate))
  {
    hide NetPrice, FeePerShare, Times, SumTo, Apply, Quantize;
    var price, take := levels[k].price, Min(levels[k].size, f.remaining);
    PositivesPrefix(f.takes, [take], k);
    SumExtend(f.takes, take, NetPrices(levels, rate));
    SumExtend(f.takes, take, Prices(levels));
    SplitNet(price, rate, take);
    QuantizeClose(Times(FeePerShare(price, rate), take));
    SharesPositive(f.takes);
    var next := SellStep(f, price, levels[k].size, rate);
    assert next.takes == f.takes + [take];
    assert HALF_QUANTUM * next.consumed as real == HALF_QUANTUM * f.consumed as real + HALF_QUANTUM;
    assert FrontLoaded(levels, next.takes, k);
    if next.remaining != 0.0 {
      assert FrontLoaded(levels, next.takes, k + 1);
    }
  }

  lemma SellStart(levels: seq<Level>, rate: real, shares: real)
    requires shares > 0.0
    ensures SellFacts(levels, rate, shares, 0, Walked(shares, 0.0, 0.0, 0.0, 0, []))
  {
  }

  lemma SellRemaining(levels: seq<Level>, rate: real, shares: real, k: nat, f: Walked)
    requires k <= |levels| && SellFacts(levels, rate, shares, k, f)
    ensures f.remaining == 0.0 || f.remaining > 0.0
  {
  }

  lemma {:induction false} SellWalkFacts(levels: seq<Level>, rate: real, shares: real, k: nat)
    requires k <= |levels| && ValidLevels(levels) && rate >= 0.0 && shares > 0.0
    requires forall i | 0 <= i < |levels| :: levels[i].size > 0.0
    ensures SellFacts(levels, rate, shares, k, SellWalk(levels, rate, shares, k))
  {
    hide SellFacts, FeePerShare, Quantize;
    if k == 0 {
      SellStart(levels, rate, shares);
    } else {
      var f := SellWalk(levels, rate, shares, k - 1);
      SellWalkFacts(levels, rate, shares, k - 1);
      SellRemaining(levels, rate, shares, k - 1, f);
      if f.remaining == 0.0 {
        SellPad(levels, rate, shares, k - 1, f);
      } else {
        SellTake(levels, rate, shares, k - 1, f);
      }
    }
  }

  // ---- selling into the highest bids is optimal ------------------------------------------

  ghost predicate DearestFirst(levels: seq<Level>) {
    forall i, j | 0 <= i < j < |levels| :: levels[i].price >= levels[j].price
  }

  lemma {:induction false} ApplyNegatedTo(c: seq<real>, a: seq<real>, k: nat)
    requires k <= |c| && k <= |a|
    ensures Apply(Negated(c), a, k) == -Apply(c, a, k)
  {
    if k > 0 {
      ApplyNegatedTo(c, a, k - 1);
      assert (-c[k - 1]) * a[k - 1] == -(c[k - 1] * a[k - 1]);
    }
  }

  lemma OppositesIncrease(levels: seq<Level>, rate: real)
    requires ValidLevels(levels) && DearestFirst(levels) && 0.0 <= rate <= 1.0
    ensures var c := Negated(NetPrices(levels, rate)); forall i, j | 0 <= i < j < |c| :: c[i] <= c[j]
  {
    hide NetPrice;
    var c := Negated(NetPrices(levels, rate));
    forall i, j | 0 <= i < j < |c| ensures c[i] <= c[j] {
      if levels[j].price < levels[i].price { PricesIncrease(levels[j].price, levels[i].price, rate); }
    }
  }

  lemma PivotLoss(pivot: real, more: real)
    requires pivot > 0.0 && more <= 0.0
    ensures Times(-pivot, more) >= 0.0
  {
    MulMono(0.0, more, pivot);
    assert Times(-pivot, more) == -(more * pivot);
  }

  /** No allocation over the bids selling at most the walk's shares nets more before rounding. */
  lemma SellOptimal(levels: seq<Level>, rate: real, shares: real, b: seq<real>)
    requires ValidLevels(levels) && DearestFirst(levels) && 0.0 <= rate <= 1.0 && shares > 0.0
    requires forall i | 0 <= i < |levels| :: levels[i].size > 0.0
    requires Allocation(levels, b) && SumTo(b, |b|) <= SellWalk(levels, rate, shares, |levels|).filled
    ensures var f := SellWalk(levels, rate, shares, |levels|);
      |f.takes| == |levels| && ExactNet(levels, rate, b, |b|) <= ExactNet(levels, rate, f.takes, |levels|)
  {
    hide NetPrice, SellWalk, SumTo, Apply, Times;
    var n, f, c := |levels|, SellWalk(levels, rate, shares, |levels|), NetPrices(levels, rate);
    SellWalkFacts(levels, rate, shares, n);
    forall i | 0 <= i < n ensures c[i] > 0.0 { NetPositive(levels[i].price, rate); }
    if f.remaining != 0.0 {
      CostMonotone(c, b, f.takes, n);
    } else {
      var m :| 0 <= m < n && FrontLoaded(levels, f.takes, m);
      OppositesIncrease(levels, rate);
      Exchange(Negated(c), b, f.takes, m, -c[m], n);
      ApplyNegatedTo(c, b, n);
      ApplyNegatedTo(c, f.takes, n);
      PivotLoss(c[m], SumTo(b, n) - SumTo(f.takes, n));
    }
  }

  // ---- simulate_sell ---------------------------------------------------------------------

  function Declined(o: Order, reason: Reason, levels: nat): Outcome<SaleResult> {
    Returned(SaleResult(o.amount, 0.0, 0.0, 0.0, None, 0.0, None, false, reason, levels))
  }

  function SettleSale(o: Order, f: Walked): Outcome<SaleResult> {
    var complete, net := f.remaining == 0.0, f.gross - f.fee;
    if f.filled == 0.0 then Declined(o, NoDepth, f.consumed)
    else if !complete && !o.allowPartial then Declined(o, InsufficientDepth, f.consumed)
    else Returned(SaleResult(o.amount, f.filled, f.gross, net, Some(f.gross / f.filled), f.fee,
                             Some(net / f.filled), complete, if complete then FullFill else PartialFill, f.consumed))
  }

  lemma BidsReady(levels: seq<Level>)
    requires ValidLevels(levels)
    ensures ValidLevels(Bids(levels)) && DearestFirst(Bids(levels))
    ensures forall l :: l in Bids(levels) <==> l in levels && l.size > 0.0
    ensures forall i | 0 <= i < |Bids(levels)| :: Bids(levels)[i].size > 0.0
  {
    SortSorts(NonEmpty(levels), Dearer);
    forall l ensures l in Bids(levels) <==> l in levels && l.size > 0.0 {
      SortMembers(NonEmpty(levels), Dearer, l);
    }
    forall i | 0 <= i < |Bids(levels)|
      ensures Bids(levels)[i].size > 0.0 && 0.0 < Bids(levels)[i].price < 1.0
    {
      assert Bids(levels)[i] in Bids(levels);
    }
  }

  /** A rate above one is only noticed, by an exception, once a level is actually sold into. */
  function SellResult(bids: seq<Level>, o: Order): Outcome<SaleResult> {
    if o.amount <= 0.0 then Raised(AmountNotPositive)
    else
      var refusal := Refusal(o, None);
      if refusal.Some? then Declined(o, refusal.value, 0)
      else if o.minimum.Some? && o.amount < o.minimum.value then Declined(o, BelowMinimum, 0)
      else if !Aligned(Bids(bids), o.tick) then Declined(o, MisalignedPrice, 0)
      else if o.feeRate.value > 1.0 && Bids(bids) != [] then Raised(FeeRateAboveOne)
      else SettleSale(o, SellWalk(Bids(bids), o.feeRate.value, o.amount, |Bids(bids)|))
  }

  method SimulateSell(bids: seq<Level>, o: Order) returns (r: Outcome<SaleResult>)
    requires ValidLevels(bids)
    ensures r == SellResult(bids, o)
  {
    hide FeePerShare, Quantize, Times, SettleSale, Bids, Refusal, Aligned;
    if o.amount <= 0.0 { return Raised(AmountNotPositive); }
    var refusal := Refusal(o, None);
    if refusal.Some? { return Declined(o, refusal.value, 0); }
    var rate := o.feeRate.value;
    if o.minimum.Some? && o.amount < o.minimum.value { return Declined(o, BelowMinimum, 0); }
    var remaining, filled, gross, fee, consumed := o.amount, 0.0, 0.0, 0.0, 0;
    var ordered := Bids(bids);
    BidsReady(bids);
    if !Aligned(ordered, o.tick) { return Declined(o, MisalignedPrice, 0); }
    var i := 0;
    ghost var f := SellWalk(ordered, rate, o.amount, 0);
    while i < |ordered|
      invariant 0 <= i <= |ordered| && f == SellWalk(ordered, rate, o.amount, i)
      invariant i > 0 ==> rate <= 1.0
      invariant i == 0 ==> remaining > 0.0
      invariant remaining >= 0.0
      invariant f.remaining == remaining && f.filled == filled && f.gross == gross
      invariant f.fee == fee && f.consumed == consumed
    {
      var price := ordered[i].price;
      var take := Min(ordered[i].size, remaining);
      f := SellStep(f, price, ordered[i].size, rate);
      i := i + 1;
      // Once nothing remains the walk ends here; the remaining levels change nothing.
      if take <= 0.0 { continue; }
      if rate > 1.0 { return Raised(FeeRateAboveOne); }
      filled := filled + take;
      gross := gross + Times(price, take);
      fee := fee + Quantize(Times(FeePerShare(price, rate), take));
      remaining := Swept(remaining - take);
      consumed := consumed + 1;
    }
    SettleSaleIgnoresTakes(o, f);
    r := SettleSale(o, Walked(remaining, filled, gross, fee, consumed, []));
  }

  lemma SettleSaleIgnoresTakes(o: Order, f: Walked)
    ensures SettleSale(o, f) == SettleSale(o, f.(takes := []))
  {
  }

  /** The whole sale completes exactly when the bids hold the shares, up to the dust. */
  lemma SellCompletes(levels: seq<Level>, rate: real, shares: real)
    requires ValidLevels(levels) && rate >= 0.0 && shares > 0.0 && (levels == [] ==> shares > DUST)
    requires forall i | 0 <= i < |levels| :: levels[i].size > 0.0
    ensures SellWalk(levels, rate, shares, |levels|).remaining == 0.0
       <==> SumTo(Sizes(levels), |levels|) >= shares - DUST
  {
    hide SumTo, Apply, FeePerShare, Quantize;
    var n, f := |levels|, SellWalk(levels, rate, shares, |levels|);
    SellWalkFacts(levels, rate, shares, n);
    SumMonotone(f.takes, Sizes(levels), n);
    if f.remaining != 0.0 { SumMonotone(Sizes(levels), f.takes, n); }
  }

  // ---- the round trip --------------------------------------------------------------------

  lemma {:induction false} PricedAbove(c: seq<real>, takes: seq<real>, x: real, k: nat)
    requires k <= |c| && k <= |takes| && forall i | 0 <= i < k :: c[i] >= x && takes[i] >= 0.0
    ensures Apply(c, takes, k) >= Times(x, SumTo(takes, k))
  {
    hide Times, Apply;
    if k == 0 {
      TimesFacts(x, 0.0, 0.0);
      ApplyStart(c, takes);
    } else {
      PricedAbove(c, takes, x, k - 1);
      ApplyStep(c, takes, k - 1);
      TimesSplit(x, SumTo(takes, k - 1), takes[k - 1]);
      TimesOrder(c[k - 1], x, takes[k - 1]);
    }
  }

  lemma {:induction false} PricedBelow(c: seq<real>, takes: seq<real>, x: real, k: nat)
    requires k <= |c| && k <= |takes| && forall i | 0 <= i < k :: c[i] <= x && takes[i] >= 0.0
    ensures Apply(c, takes, k) <= Times(x, SumTo(takes, k))
  {
    hide Times, Apply;
    if k == 0 {
      TimesFacts(x, 0.0, 0.0);
      ApplyStart(c, takes);
    } else {
      PricedBelow(c, takes, x, k - 1);
      ApplyStep(c, takes, k - 1);
      TimesSplit(x, SumTo(takes, k - 1), takes[k - 1]);
      TimesOrder(x, c[k - 1], takes[k - 1]);
    }
  }

  lemma TimesOrder(a: real, b: real, t: real)
    requires a >= b && t >= 0.0
    ensures Times(a, t) >= Times(b, t)
  {
    MulMono(a, b, t);
  }

  /** The book is not crossed: no bid above an ask. */
  ghost predicate Uncrossed(bids: seq<Level>, asks: seq<Level>) {
    forall b, a | b in bids && a in asks :: b.price <= a.price
  }

  lemma SaleGross(levels: seq<Level>, rate: real, shares: real, x: real)
    requires ValidLevels(levels) && rate >= 0.0 && shares > 0.0 && x >= 0.0
    requires forall i | 0 <= i < |levels| :: levels[i].size > 0.0 && levels[i].price <= x
    ensures var f := SellWalk(levels, rate, shares, |levels|); f.gross - f.fee <= Times(x, shares)
  {
    hide SellWalk, Times, SumTo, Apply, ExactNet;
    var f := SellWalk(levels, rate, shares, |levels|);
    SellWalkFacts(levels, rate, shares, |levels|);
    PricedBelow(Prices(levels), f.takes, x, |levels|);
    TimesFacts(x, f.filled, 0.0);
    TimesFacts(x, shares, 0.0);
    TimesOrder(shares, f.filled, x);
  }

  /** Selling what a fill bought, on an uncrossed book, never returns more than was paid. */
  lemma RoundTrip(asks: seq<Level>, bids: seq<Level>, o: Order, e: Execution, p: Order, s: SaleResult)
    requires ValidLevels(asks) && ValidLevels(bids) && Uncrossed(bids, asks)
    requires BuyResult(asks, o) == Returned(e) && e.effective.Some?
    requires p.amount == e.shares && SellResult(bids, p) == Returned(s)
    ensures s.net <= e.filledCash
  {
    hide BuyWalk, SellWalk, Asks, Bids, Aligned, Refusal, Quantize, SumTo, Apply, Times, BuyResult;
    AsksReady(asks);
    BidsReady(bids);
    FillIsWalk(asks, o, e);
    var ordered, rate := Asks(asks), o.feeRate.value;
    var f := BuyWalk(ordered, rate, o.amount, |ordered|);
    BuyWalkFacts(ordered, rate, o.amount, |ordered|);
    QuantizeClose(f.fee);
    FillPositive(asks, o, e);
    var x := ordered[0].price;
    assert ordered[0] in ordered;
    PricedAbove(Prices(ordered), f.takes, x, |ordered|);
    if s.effective.Some? {
      forall i | 0 <= i < |Bids(bids)| ensures Bids(bids)[i].price <= x {
        assert Bids(bids)[i] in Bids(bids);
      }
      SaleGross(Bids(bids), p.feeRate.value, p.amount, x);
    } else {
      CostSign(ordered, f.takes, |ordered|);
    }
  }

  lemma FillPositive(asks: seq<Level>, o: Order, e: Execution)
    requires ValidLevels(asks) && BuyResult(asks, o) == Returned(e) && e.effective.Some?
    ensures e.shares > 0.0 && Asks(asks) != []
  {
    hide Asks, Aligned, Refusal, Quantize;
    AsksReady(asks);
    WalkShares(Asks(asks), o.feeRate.value, o.amount, |Asks(asks)|);
  }
}
