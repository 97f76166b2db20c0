/**
 Simulated order-book execution (app/execution.py): a buy spends cash up the asks, a sale walks
 down the bids, and fees follow the curve shares * rate * p * (1 - p), rounded to five decimals
 half to even.
 */
module Execution {
  import opened Options
  import opened Ordering
  import opened RealSums

  datatype Level = Level(price: real, size: real)

  ghost predicate ValidLevels(levels: seq<Level>) {
    forall i | 0 <= i < |levels| :: 0.0 < levels[i].price < 1.0 && levels[i].size >= 0.0
  }

  const DUST: real := 0.00000001
  const HALF_QUANTUM: real := 0.000005

  // ---- fees ------------------------------------------------------------------------------

  /** Rounds to five decimals, halves to the even neighbour. */
  function Quantize(v: real): real {
    var units := v * 100000.0;
    var below := units.Floor;
    var rest := units - below as real;
    var n := if rest < 0.5 || (rest == 0.5 && below % 2 == 0) then below else below + 1;
    n as real / 100000.0
  }

  lemma QuantizeClose(v: real)
    ensures v - HALF_QUANTUM <= Quantize(v) <= v + HALF_QUANTUM
    ensures v >= 0.0 ==> Quantize(v) >= 0.0
  {
  }

  function FeePerShare(price: real, rate: real): real { rate * price * (1.0 - price) }

  function AllIn(price: real, rate: real): real { price + FeePerShare(price, rate) }

  /** What one share sold at the price brings after the exact fee. */
  function NetPrice(price: real, rate: real): real { price - FeePerShare(price, rate) }

  /** Distance between two points of the fee curve. */
  lemma FeeDifference(p: real, q: real, rate: real, slope: real)
    requires slope == rate * (1.0 - p - q)
    ensures FeePerShare(q, rate) - FeePerShare(p, rate) == (q - p) * slope
  {
    assert rate * q * (1.0 - q) - rate * p * (1.0 - p) == rate * ((q - p) * (1.0 - p - q));
  }

  lemma SlopeRange(rate: real, x: real, slope: real)
    requires 0.0 <= rate <= 1.0 && -1.0 < x < 1.0 && slope == rate * x
    ensures -1.0 < slope < 1.0
  {
    if x >= 0.0 {
      MulMono(1.0, rate, x);
      MulMono(rate, 0.0, x);
    } else {
      MulMono(1.0, rate, -x);
      MulMono(rate, 0.0, -x);
      assert rate * (-x) == -slope;
    }
  }

  /** For a fee rate in [0,1] both the all-in price and the net price strictly increase. */
  lemma PricesIncrease(p: real, q: real, rate: real)
    requires 0.0 < p < q < 1.0 && 0.0 <= rate <= 1.0
    ensures AllIn(p, rate) < AllIn(q, rate) && NetPrice(p, rate) < NetPrice(q, rate)
  {
    hide FeePerShare;
    var slope, d := rate * (1.0 - p - q), q - p;
    FeeDifference(p, q, rate, slope);
    SlopeRange(rate, 1.0 - p - q, slope);
    GainRange(slope, d, FeePerShare(q, rate) - FeePerShare(p, rate));
  }

  lemma GainRange(slope: real, d: real, gain: real)
    requires d > 0.0 && -1.0 < slope < 1.0 && gain == d * slope
    ensures -d < gain < d
  {
    ProductPositive(d, 1.0 - slope, d - gain);
    ProductPositive(d, 1.0 + slope, d + gain);
  }

  lemma FeeSign(price: real, rate: real)
    requires 0.0 < price < 1.0 && rate >= 0.0
    ensures FeePerShare(price, rate) >= 0.0 && AllIn(price, rate) > 0.0
  {
    MulMono(rate, 0.0, price);
    MulMono(rate * price, 0.0, 1.0 - price);
  }

  lemma NetPositive(price: real, rate: real)
    requires 0.0 < price < 1.0 && 0.0 <= rate <= 1.0
    ensures 0.0 < NetPrice(price, rate) <= price
  {
    var square, spread := Times(price, price), Times(price, 1.0 - price);
    ProductPositive(price, price, square);
    ProductPositive(price, 1.0 - price, spread);
    assert price == square + spread;
    assert FeePerShare(price, rate) == rate * spread;
    hide Times;
    MulMono(1.0, rate, spread);
    MulMono(rate, 0.0, spread);
  }

  // ---- the walk up the asks --------------------------------------------------------------

  /** Running totals of the walk, with what it took from every level so far. */
  datatype Fill = Fill(remaining: real, shares: real, cost: real, fee: real, consumed: nat, takes: seq<real>)

  /** Remaining cash (or shares) once the dust rule is applied. */
  function Swept(remaining: real): real { if remaining <= DUST then 0.0 else remaining }

  function BuyStep(f: Fill, price: real, size: real, rate: real): Fill
    requires AllIn(price, rate) > 0.0
  {
    var take := Min(size, f.remaining / AllIn(price, rate));
    if f.remaining == 0.0 || take <= 0.0 then f.(takes := f.takes + [0.0])
    else Fill(Swept(f.remaining - Times(AllIn(price, rate), take)), f.shares + take,
              f.cost + Times(price, take), f.fee + Times(FeePerShare(price, rate), take),
              f.consumed + 1, f.takes + [take])
  }

  /** The walk over the first k levels; it changes nothing once no cash remains. */
  function BuyWalk(levels: seq<Level>, rate: real, cash: real, k: nat): Fill
    requires k <= |levels| && ValidLevels(levels) && rate >= 0.0
  {
    if k == 0 then Fill(cash, 0.0, 0.0, 0.0, 0, [])
    else
      FeeSign(levels[k - 1].price, rate);
      BuyStep(BuyWalk(levels, rate, cash, k - 1), levels[k - 1].price, levels[k - 1].size, rate)
  }

  function Prices(levels: seq<Level>): (c: seq<real>)
    ensures |c| == |levels| && forall i | 0 <= i < |c| :: c[i] == levels[i].price
  {
    seq(|levels|, i requires 0 <= i < |levels| => levels[i].price)
  }

  function AllIns(levels: seq<Level>, rate: real): (c: seq<real>)
    ensures |c| == |levels| && forall i | 0 <= i < |c| :: c[i] == AllIn(levels[i].price, rate)
  {
    seq(|levels|, i requires 0 <= i < |levels| => AllIn(levels[i].price, rate))
  }

  function NetPrices(levels: seq<Level>, rate: real): (c: seq<real>)
    ensures |c| == |levels| && forall i | 0 <= i < |c| :: c[i] == NetPrice(levels[i].price, rate)
  {
    seq(|levels|, i requires 0 <= i < |levels| => NetPrice(levels[i].price, rate))
  }

  function Sizes(levels: seq<Level>): (c: seq<real>)
    ensures |c| == |levels| && forall i | 0 <= i < |c| :: c[i] == levels[i].size
  {
    seq(|levels|, i requires 0 <= i < |levels| => levels[i].size)
  }

  /** Amounts that a book can supply, level by level. */
  ghost predicate Allocation(levels: seq<Level>, a: seq<real>) {
    |a| == |levels| && forall i | 0 <= i < |a| :: 0.0 <= a[i] <= levels[i].size
  }

  /** Whole levels before m, nothing after m. */
  ghost predicate FrontLoaded(levels: seq<Level>, takes: seq<real>, m: nat) {
    && |takes| <= |levels|
    && (forall i | 0 <= i < |takes| && i < m :: takes[i] == levels[i].size)
    && (forall i | 0 <= i < |takes| && i > m :: takes[i] == 0.0)
  }

  /** How many of the first k takes are positive. */
  function Positives(takes: seq<real>, k: nat): nat
    requires k <= |takes|
  {
    if k == 0 then 0 else Positives(takes, k - 1) + if takes[k - 1] > 0.0 then 1 else 0
  }

  lemma {:induction false} PositivesPrefix(takes: seq<real>, more: seq<real>, k: nat)
    requires k <= |takes|
    ensures Positives(takes + more, k) == Positives(takes, k)
  {
    if k > 0 { PositivesPrefix(takes, more, k - 1); }
  }

  ghost predicate BuyFacts(levels: seq<Level>, rate: real, cash: real, k: nat, f: Fill)
    requires k <= |levels|
  {
    && |f.takes| == k
    && (forall i | 0 <= i < k :: 0.0 <= f.takes[i] <= levels[i].size)
    && f.shares == SumTo(f.takes, k) && f.cost + f.fee == Apply(AllIns(levels, rate), f.takes, k)
    && f.cost == Apply(Prices(levels), f.takes, k) && f.fee >= 0.0 && f.consumed == Positives(f.takes, k)
    && (f.remaining != 0.0 ==>
          f.remaining > 0.0 && (k > 0 ==> f.remaining > DUST) && f.remaining == cash - (f.cost + f.fee)
          && FrontLoaded(levels, f.takes, k))
    && (f.remaining == 0.0 ==>
          0.0 <= cash - (f.cost + f.fee) <= DUST && f.shares > 0.0
          && exists m | 0 <= m < k :: FrontLoaded(levels, f.takes, m))
  }

  lemma {:induction false} SumPrefix(a: seq<real>, b: seq<real>, c: seq<real>, k: nat)
    requires k <= |a| && k <= |b| && k <= |c| && forall i | 0 <= i < k :: a[i] == b[i]
    ensures SumTo(a, k) == SumTo(b, k) && Apply(c, a, k) == Apply(c, b, k)
  {
    if k > 0 { SumPrefix(a, b, c, k - 1); }
  }

  lemma SumExtend(takes: seq<real>, take: real, c: seq<real>)
    requires |takes| < |c|
    ensures SumTo(takes + [take], |takes| + 1) == SumTo(takes, |takes|) + take
    ensures Apply(c, takes + [take], |takes| + 1) == Apply(c, takes, |takes|) + Times(c[|takes|], take)
  {
    SumPrefix(takes + [take], takes, c, |takes|);
  }

  lemma TakeBounds(size: real, remaining: real, c: real, take: real)
    requires size > 0.0 && remaining > 0.0 && c > 0.0 && take == Min(size, remaining / c)
    ensures 0.0 < take <= size && Times(c, take) <= remaining
    ensures take < size ==> Times(c, take) == remaining
  {
    var q := remaining / c;
    Quotient(remaining, c, q);
    if q <= 0.0 {
      MulMono(0.0, q, c);
      assert false;
    }
    MulMono(q, take, c);
  }

  lemma SplitAllIn(price: real, rate: real, take: real)
    requires 0.0 < price < 1.0 && rate >= 0.0 && take >= 0.0
    ensures Times(AllIn(price, rate), take) == Times(price, take) + Times(FeePerShare(price, rate), take)
    ensures Times(FeePerShare(price, rate), take) >= 0.0
  {
    FeeSign(price, rate);
    MulMono(FeePerShare(price, rate), 0.0, take);
  }

  lemma BuyPad(levels: seq<Level>, rate: real, cash: real, k: nat, f: Fill)
    requires k < |levels| && ValidLevels(levels) && BuyFacts(levels, rate, cash, k, f) && f.remaining == 0.0
    ensures BuyFacts(levels, rate, cash, k + 1, f.(takes := f.takes + [0.0]))
  {
    hide AllIn, Times, SumTo, Apply;
    PositivesPrefix(f.takes, [0.0], k);
    SumExtend(f.takes, 0.0, AllIns(levels, rate));
    SumExtend(f.takes, 0.0, Prices(levels));
    TimesFacts(AllIns(levels, rate)[k], 0.0, 0.0);
    TimesFacts(Prices(levels)[k], 0.0, 0.0);
    var m :| 0 <= m < k && FrontLoaded(levels, f.takes, m);
    assert FrontLoaded(levels, f.takes + [0.0], m);
  }

  lemma BuyTake(levels: seq<Level>, rate: real, cash: real, k: nat, f: Fill, take: real)
    requires k < |levels| && ValidLevels(levels) && rate >= 0.0 && levels[k].size > 0.0
    requires BuyFacts(levels, rate, cash, k, f) && f.remaining > 0.0
    requires AllIn(levels[k].price, rate) > 0.0
    requires take == Min(levels[k].size, f.remaining / AllIn(levels[k].price, rate)) && take > 0.0
    ensures BuyFacts(levels, rate, cash, k + 1, BuyStep(f, levels[k].price, levels[k].size, rate))
  {
    hide AllIn, FeePerShare, Times, SumTo, Apply;
    var price := levels[k].price;
    TakeBounds(levels[k].size, f.remaining, AllIn(price, rate), take);
    PositivesPrefix(f.takes, [take], k);
    SumExtend(f.takes, take, AllIns(levels, rate));
    SumExtend(f.takes, take, Prices(levels));
    SplitAllIn(price, rate, take);
    SharesPositive(f.takes);
    var next := BuyStep(f, price, levels[k].size, rate);
    assert next.takes == f.takes + [take];
    assert FrontLoaded(levels, next.takes, k);
    if next.remaining != 0.0 {
      assert take == levels[k].size;
      assert FrontLoaded(levels, next.takes, k + 1);
    }
  }

  lemma {:induction false} SharesPositive(takes: seq<real>)
    requires forall i | 0 <= i < |takes| :: takes[i] >= 0.0
    ensures SumTo(takes, |takes|) >= 0.0
  {
    if takes != [] {
      var n := |takes| - 1;
      SharesPositive(takes[..n]);
      SumPrefix(takes[..n], takes, takes, n);
    }
  }

  lemma {:induction false} BuyWalkFacts(levels: seq<Level>, rate: real, cash: real, k: nat)
    requires k <= |levels| && ValidLevels(levels) && rate >= 0.0 && cash > 0.0
    requires forall i | 0 <= i < |levels| :: levels[i].size > 0.0
    ensures BuyFacts(levels, rate, cash, k, BuyWalk(levels, rate, cash, k))
  {
    hide BuyFacts, AllIn, FeePerShare;
    if k == 0 {
      BuyStart(levels, rate, cash);
    } else {
      var f, l := BuyWalk(levels, rate, cash, k - 1), levels[k - 1];
      BuyWalkFacts(levels, rate, cash, k - 1);
      FeeSign(l.price, rate);
      BuyRemaining(levels, rate, cash, k - 1, f);
      if f.remaining == 0.0 {
        BuyPad(levels, rate, cash, k - 1, f);
      } else {
        var take := Min(l.size, f.remaining / AllIn(l.price, rate));
        TakeBounds(l.size, f.remaining, AllIn(l.price, rate), take);
        BuyTake(levels, rate, cash, k - 1, f, take);
      }
    }
  }

  lemma BuyStart(levels: seq<Level>, rate: real, cash: real)
    requires cash > 0.0
    ensures BuyFacts(levels, rate, cash, 0, Fill(cash, 0.0, 0.0, 0.0, 0, []))
  {
  }

  lemma BuyRemaining(levels: seq<Level>, rate: real, cash: real, k: nat, f: Fill)
    requires k <= |levels| && BuyFacts(levels, rate, cash, k, f)
    ensures f.remaining == 0.0 || f.remaining > 0.0
  {
  }

  // ---- front-loading the cheap levels is optimal -----------------------------------------

  /** Moving quantity across the pivot level never lowers the cost of a given total. */
  lemma {:induction false} Exchange(c: seq<real>, a: seq<real>, takes: seq<real>, m: nat, pivot: real, k: nat)
    requires |c| == |a| == |takes| && m < |c| && pivot == c[m] && k <= |c|
    requires forall i, j | 0 <= i < j < |c| :: c[i] <= c[j]
    requires forall i | 0 <= i < m :: a[i] <= takes[i]
    requires forall i | m < i < |c| :: a[i] >= takes[i]
    ensures Times(pivot, SumTo(a, k) - SumTo(takes, k)) <= Apply(c, a, k) - Apply(c, takes, k)
  {
    hide Times, Apply;
    if k == 0 {
      TimesFacts(pivot, 0.0, 0.0);
      ApplyStart(c, a);
      ApplyStart(c, takes);
    } else {
      var i := k - 1;
      Exchange(c, a, takes, m, pivot, i);
      ExchangeStep(pivot, c[i], a[i], takes[i], i as int - m as int);
      ApplyStep(c, a, i);
      ApplyStep(c, takes, i);
      TimesSplit(pivot, SumTo(a, i) - SumTo(takes, i), a[i] - takes[i]);
      assert SumTo(a, k) - SumTo(takes, k) == (SumTo(a, i) - SumTo(takes, i)) + (a[i] - takes[i]);
    }
  }

  lemma ApplyStart(c: seq<real>, a: seq<real>)
    ensures Apply(c, a, 0) == 0.0
  {
  }

  lemma ApplyStep(c: seq<real>, a: seq<real>, i: nat)
    requires i < |c| && i < |a|
    ensures Apply(c, a, i + 1) == Apply(c, a, i) + Times(c[i], a[i])
  {
  }

  lemma ExchangeStep(pivot: real, c: real, a: real, take: real, side: int)
    requires side < 0 ==> c <= pivot && a <= take
    requires side == 0 ==> c == pivot
    requires side > 0 ==> c >= pivot && a >= take
    ensures Times(pivot, a - take) <= Times(c, a) - Times(c, take)
  {
    if side < 0 {
      MulMono(pivot, c, take - a);
    } else if side > 0 {
      MulMono(c, pivot, a - take);
    }
  }

  lemma TimesSplit(c: real, x: real, d: real)
    ensures Times(c, x + d) == Times(c, x) + Times(c, d)
  {
  }

  lemma {:induction false} SumMonotone(a: seq<real>, b: seq<real>, k: nat)
    requires k <= |a| && k <= |b| && forall i | 0 <= i < k :: a[i] <= b[i]
    ensures SumTo(a, k) <= SumTo(b, k)
  {
    if k > 0 { SumMonotone(a, b, k - 1); }
  }

  lemma PivotSign(pivot: real, more: real)
    requires pivot > 0.0 && Times(pivot, more) <= 0.0
    ensures more <= 0.0
  {
    if more > 0.0 {
      ProductPositive(pivot, more, Times(pivot, more));
    }
  }

  ghost predicate CheapestFirst(levels: seq<Level>) {
    forall i, j | 0 <= i < j < |levels| :: levels[i].price <= levels[j].price
  }

  lemma AllInsIncrease(levels: seq<Level>, rate: real)
    requires ValidLevels(levels) && CheapestFirst(levels) && 0.0 <= rate <= 1.0
    ensures forall i, j | 0 <= i < j < |levels| :: AllIns(levels, rate)[i] <= AllIns(levels, rate)[j]
  {
    hide AllIn;
    forall i, j | 0 <= i < j < |levels| ensures AllIns(levels, rate)[i] <= AllIns(levels, rate)[j] {
      if levels[i].price < levels[j].price { PricesIncrease(levels[i].price, levels[j].price, rate); }
    }
  }

  /** No allocation costing at most what the walk spent buys more shares. */
  lemma BuyOptimal(levels: seq<Level>, rate: real, cash: real, a: seq<real>)
    requires ValidLevels(levels) && CheapestFirst(levels) && 0.0 <= rate <= 1.0 && cash > 0.0
    requires forall i | 0 <= i < |levels| :: levels[i].size > 0.0
    requires Allocation(levels, a)
    requires var f := BuyWalk(levels, rate, cash, |levels|);
      Apply(AllIns(levels, rate), a, |a|) <= f.cost + f.fee
    ensures SumTo(a, |a|) <= BuyWalk(levels, rate, cash, |levels|).shares
  {
    hide AllIn, BuyWalk, SumTo, Apply, Times;
    var n, f := |levels|, BuyWalk(levels, rate, cash, |levels|);
    BuyWalkFacts(levels, rate, cash, n);
    if f.remaining != 0.0 {
      SumMonotone(a, f.takes, n);
    } else {
      var m :| 0 <= m < n && FrontLoaded(levels, f.takes, m);
      AllInsIncrease(levels, rate);
      Exchange(AllIns(levels, rate), a, f.takes, m, AllIns(levels, rate)[m], n);
      FeeSign(levels[m].price, rate);
      PivotSign(AllIns(levels, rate)[m], SumTo(a, n) - SumTo(f.takes, n));
    }
  }

  // ---- simulate_buy ----------------------------------------------------------------------

  datatype Order = Order(amount: real, feeRate: Option<real>, allowPartial: bool, tick: Option<real>,
                         minimum: Option<real>, active: bool, resolved: bool, restricted: bool,
                         accepting: bool, depthComplete: bool, identityAmbiguous: bool)

  datatype Reason =
    | AmountNotPositive | FeeRateAboveOne
    | AmbiguousIdentity | MarketClosed | DepthUnavailable | FeeUnavailable | InvalidFeeRate | InvalidTick
    | InvalidMinimum | MisalignedPrice | InsufficientDepth | NoDepth | BelowMinimum
    | FullFill | PartialFill

  datatype Execution = Execution(requested: real, filledCash: real, shares: real, vwap: Option<real>,
                                 fee: real, effective: Option<real>, complete: bool, reason: Reason,
                                 levels: nat)

  /** A raised ValueError, or a result. */
  datatype Outcome<+T> = Raised(reason: Reason) | Returned(value: T)

  function Rejected(o: Order, reason: Reason, levels: nat): Outcome<Execution> {
    Returned(Execution(o.amount, 0.0, 0.0, None, 0.0, None, false, reason, levels))
  }

  predicate MarketOpen(o: Order) { o.active && !o.resolved && !o.restricted && o.accepting }

  /** The metadata checks shared by both sides, in order; None when all pass. */
  function Refusal(o: Order, rateLimit: Option<real>): (r: Option<Reason>)
    ensures r.None? ==> MarketOpen(o) && !o.identityAmbiguous && o.depthComplete
    ensures r.None? ==> o.feeRate.Some? && o.feeRate.value >= 0.0
    ensures r.None? && rateLimit.Some? ==> o.feeRate.value <= rateLimit.value
    ensures r.None? && o.tick.Some? ==> 0.0 < o.tick.value < 1.0
    ensures r.None? && o.minimum.Some? ==> o.minimum.value > 0.0
  {
    if o.identityAmbiguous then Some(AmbiguousIdentity)
    else if !MarketOpen(o) then Some(MarketClosed)
    else if !o.depthComplete then Some(DepthUnavailable)
    else if o.feeRate.None? then Some(FeeUnavailable)
    else if o.feeRate.value < 0.0 || (rateLimit.Some? && o.feeRate.value > rateLimit.value) then Some(InvalidFeeRate)
    else if o.tick.Some? && !(0.0 < o.tick.value < 1.0) then Some(InvalidTick)
    else if o.minimum.Some? && o.minimum.value <= 0.0 then Some(InvalidMinimum)
    else None
  }

  predicate Aligned(levels: seq<Level>, tick: Option<real>)
    requires tick.Some? ==> tick.value > 0.0
  {
    tick.Some? ==> forall i | 0 <= i < |levels| ::
      var q := levels[i].price / tick.value; q == q.Floor as real
  }

  function NonEmpty(levels: seq<Level>): (r: seq<Level>)
    ensures forall i | 0 <= i < |r| :: r[i].size > 0.0
    ensures forall l :: l in r <==> l in levels && l.size > 0.0
  {
    if levels == [] then []
    else
      assert levels == levels[..|levels| - 1] + [levels[|levels| - 1]];
      NonEmpty(levels[..|levels| - 1])
      + (if levels[|levels| - 1].size > 0.0 then [levels[|levels| - 1]] else [])
  }

  predicate Cheaper(a: Level, b: Level) { a.price <= b.price }

  predicate Dearer(a: Level, b: Level) { a.price >= b.price }

  function Asks(levels: seq<Level>): seq<Level> { Sort(NonEmpty(levels), Cheaper) }

  function Bids(levels: seq<Level>): seq<Level> { Sort(NonEmpty(levels), Dearer) }

  lemma AsksReady(levels: seq<Level>)
    requires ValidLevels(levels)
    ensures ValidLevels(Asks(levels)) && CheapestFirst(Asks(levels))
    ensures forall l :: l in Asks(levels) <==> l in levels && l.size > 0.0
    ensures forall i | 0 <= i < |Asks(levels)| :: Asks(levels)[i].size > 0.0
  {
    SortSorts(NonEmpty(levels), Cheaper);
    forall l ensures l in Asks(levels) <==> l in levels && l.size > 0.0 {
      SortMembers(NonEmpty(levels), Cheaper, l);
    }
    forall i | 0 <= i < |Asks(levels)|
      ensures Asks(levels)[i].size > 0.0 && 0.0 < Asks(levels)[i].price < 1.0
    {
      assert Asks(levels)[i] in Asks(levels);
    }
  }

  /** The result once the walk has ended. */
  function Settle(o: Order, f: Fill): Outcome<Execution>
    requires f.shares >= 0.0
  {
    var fee, complete := Quantize(f.fee), f.remaining == 0.0;
    if !complete && !o.allowPartial then Rejected(o, InsufficientDepth, f.consumed)
    else if f.shares == 0.0 then Rejected(o, NoDepth, f.consumed)
    else if o.minimum.Some? && f.shares < o.minimum.value then Rejected(o, BelowMinimum, f.consumed)
    else Returned(Execution(o.amount, f.cost + fee, f.shares, Some(f.cost / f.shares), fee,
                            Some((f.cost + fee) / f.shares), complete,
                            if complete then FullFill else PartialFill, f.consumed))
  }

  lemma {:induction false} WalkShares(levels: seq<Level>, rate: real, cash: real, k: nat)
    requires k <= |levels| && ValidLevels(levels) && rate >= 0.0
    ensures BuyWalk(levels, rate, cash, k).shares >= 0.0
  {
    if k > 0 {
      WalkShares(levels, rate, cash, k - 1);
      FeeSign(levels[k - 1].price, rate);
    }
  }

  function BuyResult(asks: seq<Level>, o: Order): Outcome<Execution>
    requires ValidLevels(asks)
  {
    AsksReady(asks);
    if o.amount <= 0.0 then Raised(AmountNotPositive)
    else
      var refusal := Refusal(o, Some(1.0));
      if refusal.Some? then Rejected(o, refusal.value, 0)
      else if !Aligned(Asks(asks), o.tick) then Rejected(o, MisalignedPrice, 0)
      else
        WalkShares(Asks(asks), o.feeRate.value, o.amount, |Asks(asks)|);
        Settle(o, BuyWalk(Asks(asks), o.feeRate.value, o.amount, |Asks(asks)|))
  }

  lemma SettleIgnoresTakes(o: Order, f: Fill)
    requires f.shares >= 0.0
    ensures Settle(o, f) == Settle(o, f.(takes := []))
  {
  }

  lemma BuyWalkStart(levels: seq<Level>, rate: real, cash: real)
    requires ValidLevels(levels) && rate >= 0.0
    ensures BuyWalk(levels, rate, cash, 0) == Fill(cash, 0.0, 0.0, 0.0, 0, [])
  {
  }

  lemma BuyWalkStep(levels: seq<Level>, rate: real, cash: real, i: nat)
    requires i < |levels| && ValidLevels(levels) && rate >= 0.0
    ensures AllIn(levels[i].price, rate) > 0.0
    ensures BuyWalk(levels, rate, cash, i + 1)
         == BuyStep(BuyWalk(levels, rate, cash, i), levels[i].price, levels[i].size, rate)
  {
    FeeSign(levels[i].price, rate);
  }

  method SimulateBuy(asks: seq<Level>, o: Order) returns (r: Outcome<Execution>)
    requires ValidLevels(asks)
    ensures r == BuyResult(asks, o)
  {
    hide AllIn, FeePerShare, Quantize, Times, BuyWalk, Settle, Asks, Refusal, Aligned;
    if o.amount <= 0.0 { return Raised(AmountNotPositive); }
    var refusal := Refusal(o, Some(1.0));
    if refusal.Some? { return Rejected(o, refusal.value, 0); }
    var rate := o.feeRate.value;
    var ordered := Asks(asks);
    AsksReady(asks);
    if !Aligned(ordered, o.tick) { return Rejected(o, MisalignedPrice, 0); }
    var remaining, cost, shares, fee, consumed := o.amount, 0.0, 0.0, 0.0, 0;
    var i := 0;
    BuyWalkStart(ordered, rate, o.amount);
    ghost var f := BuyWalk(ordered, rate, o.amount, 0);
    while i < |ordered|
      invariant 0 <= i <= |ordered| && f == BuyWalk(ordered, rate, o.amount, i)
      invariant f.remaining == remaining && f.shares == shares && f.cost == cost
      invariant f.fee == fee && f.consumed == consumed
    {
      var price := ordered[i].price;
      FeeSign(price, rate);
      BuyWalkStep(ordered, rate, o.amount, i);
      f := BuyStep(f, price, ordered[i].size, rate);
      i := i + 1;
      // Once no cash remains the walk ends here; the remaining levels change nothing.
      if remaining == 0.0 { continue; }
      var allIn := AllIn(price, rate);
      var take := Min(ordered[i - 1].size, remaining / allIn);
      if take <= 0.0 { continue; }
      var total := Times(allIn, take);
      shares := shares + take;
      cost := cost + Times(price, take);
      fee := fee + Times(FeePerShare(price, rate), take);
      remaining := Swept(remaining - total);
      consumed := consumed + 1;
    }
    WalkShares(ordered, rate, o.amount, |ordered|);
    SettleIgnoresTakes(o, f);
    r := Settle(o, Fill(remaining, shares, cost, fee, consumed, []));
  }

  /** The whole book's all-in cost. */
  function Depth(levels: seq<Level>, rate: real): real { Apply(AllIns(levels, rate), Sizes(levels), |levels|) }

  lemma {:induction false} CostMonotone(c: seq<real>, a: seq<real>, b: seq<real>, k: nat)
    requires k <= |a| && k <= |b| && k <= |c|
    requires forall i | 0 <= i < k :: a[i] <= b[i] && c[i] >= 0.0
    ensures Apply(c, a, k) <= Apply(c, b, k)
  {
    if k > 0 {
      CostMonotone(c, a, b, k - 1);
      MulMono(b[k - 1], a[k - 1], c[k - 1]);
    }
  }

  /** The walk completes exactly when the book's depth covers the cash up to the dust. */
  lemma BuyCompletes(levels: seq<Level>, rate: real, cash: real)
    requires ValidLevels(levels) && 0.0 <= rate <= 1.0 && cash > 0.0 && (levels == [] ==> cash > DUST)
    requires forall i | 0 <= i < |levels| :: levels[i].size > 0.0
    ensures BuyWalk(levels, rate, cash, |levels|).remaining == 0.0 <==> Depth(levels, rate) >= cash - DUST
  {
    hide AllIn, BuyWalk, Apply;
    BuyWalkStart(levels, rate, cash);
    var n, f, c := |levels|, BuyWalk(levels, rate, cash, |levels|), AllIns(levels, rate);
    BuyWalkFacts(levels, rate, cash, n);
    forall i | 0 <= i < n ensures c[i] >= 0.0 { FeeSign(levels[i].price, rate); }
    CostMonotone(c, f.takes, Sizes(levels), n);
    if f.remaining != 0.0 { CostMonotone(c, Sizes(levels), f.takes, n); }
  }

  /** Bounds of a settled fill, from bounds of the walk. */
  ghost predicate FillBounds(o: Order, e: Execution) {
    && 0.0 <= e.filledCash <= o.amount + HALF_QUANTUM && e.requested == o.amount
    && (e.complete ==> e.filledCash >= o.amount - DUST - HALF_QUANTUM && e.effective.Some? && e.vwap.Some?)
    && (e.effective.Some? ==> e.shares > 0.0 && e.effective.value == e.filledCash / e.shares)
    && (e.effective.None? ==> e.filledCash == 0.0 && e.shares == 0.0 && !e.complete)
  }

  lemma SettleBounds(o: Order, f: Fill, e: Execution)
    requires o.amount > 0.0 && f.shares >= 0.0 && f.cost >= 0.0 && f.fee >= 0.0 && f.cost + f.fee <= o.amount
    requires f.remaining == 0.0 ==> f.cost + f.fee >= o.amount - DUST && f.shares > 0.0
    requires Settle(o, f) == Returned(e)
    ensures FillBounds(o, e)
  {
    hide Quantize;
    QuantizeClose(f.fee);
  }

  /**
   A fill never costs more than the request plus half a fee quantum, and a full one costs at least
   the request less half a quantum and the dust; everything refused returns zeros.
   */
  lemma BuyCost(asks: seq<Level>, o: Order, e: Execution)
    requires ValidLevels(asks) && BuyResult(asks, o) == Returned(e)
    ensures FillBounds(o, e)
  {
    hide AllIn, BuyWalk, Asks, Apply, SumTo, Settle, Aligned, Refusal;
    AsksReady(asks);
    var ordered := Asks(asks);
    if Refusal(o, Some(1.0)).None? && Aligned(ordered, o.tick) {
      var f := BuyWalk(ordered, o.feeRate.value, o.amount, |ordered|);
      BuyWalkFacts(ordered, o.feeRate.value, o.amount, |ordered|);
      SharesPositive(f.takes);
      CostSign(ordered, f.takes, |ordered|);
      SettleBounds(o, f, e);
    }
  }

  /** The walk behind an order that passed the metadata checks. */
  function WalkOf(asks: seq<Level>, o: Order): Fill
    requires ValidLevels(asks) && Refusal(o, Some(1.0)).None?
  {
    AsksReady(asks);
    BuyWalk(Asks(asks), o.feeRate.value, o.amount, |Asks(asks)|)
  }

  lemma FillIsWalk(asks: seq<Level>, o: Order, e: Execution)
    requires ValidLevels(asks) && BuyResult(asks, o) == Returned(e) && e.effective.Some?
    ensures o.amount > 0.0 && Refusal(o, Some(1.0)).None? && Aligned(Asks(asks), o.tick)
    ensures e.shares == WalkOf(asks, o).shares && e.filledCash == WalkOf(asks, o).cost + Quantize(WalkOf(asks, o).fee)
  {
    hide BuyWalk, Asks, Aligned, Refusal, Quantize;
  }

  /** No allocation over the asks costing at most what the fill spent buys more shares. */
  lemma BuyResultOptimal(asks: seq<Level>, o: Order, e: Execution, a: seq<real>)
    requires ValidLevels(asks) && BuyResult(asks, o) == Returned(e) && e.effective.Some?
    requires Refusal(o, Some(1.0)).None? && Allocation(Asks(asks), a)
    requires Apply(AllIns(Asks(asks), o.feeRate.value), a, |a|) <= WalkOf(asks, o).cost + WalkOf(asks, o).fee
    ensures SumTo(a, |a|) <= e.shares
  {
    hide BuyWalk, Asks, Refusal, BuyResult, AllIns, Apply, SumTo;
    AsksReady(asks);
    FillIsWalk(asks, o, e);
    BuyOptimal(Asks(asks), o.feeRate.value, o.amount, a);
  }

  lemma {:induction false} CostSign(levels: seq<Level>, takes: seq<real>, k: nat)
    requires ValidLevels(levels) && k <= |levels| && k <= |takes|
    requires forall i | 0 <= i < k :: takes[i] >= 0.0
    ensures Apply(Prices(levels), takes, k) >= 0.0
  {
    if k > 0 {
      CostSign(levels, takes, k - 1);
      MulMono(takes[k - 1], 0.0, levels[k - 1].price);
    }
  }
}
