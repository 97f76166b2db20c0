/**
 CORP reliability (app/backtest.py, corp_reliability): forecasts are recalibrated by the
 isotonic fit and the mean Brier score is decomposed against it.
 */
module Corp {
  import opened Isotonic
  import opened Ordering
  import opened Options
  import opened RealSums

  /** A paper observation: either field may be missing. */
  datatype Bet = Bet(prob: Option<real>, result: Option<real>)

  /** A scored row: (forecast, settled result). */
  type Row = (real, real)

  datatype Bin = Bin(meanPredicted: real, calibratedRate: real, count: nat)

  datatype Report = Report(n: nat, miscalibration: real, discrimination: real,
                           uncertainty: real, meanBrier: real, curve: seq<Bin>)

  /** Settled rows that carry the probability; nothing is backfilled. */
  function Scored(bets: seq<Bet>): seq<Row> {
    if bets == [] then []
    else
      var b := bets[|bets| - 1];
      Scored(bets[..|bets| - 1])
      + (if b.prob.Some? && b.result.Some? then [(b.prob.value, b.result.value)] else [])
  }

  predicate RowLe(a: Row, b: Row) { a.0 < b.0 || (a.0 == b.0 && a.1 <= b.1) }

  function Data(bets: seq<Bet>): seq<Row> { Sort(Scored(bets), RowLe) }

  function Forecasts(data: seq<Row>): (r: seq<real>)
    ensures |r| == |data|
  {
    seq(|data|, i requires 0 <= i < |data| => data[i].0)
  }

  function Outcomes(data: seq<Row>): (r: seq<real>)
    ensures |r| == |data|
  {
    seq(|data|, i requires 0 <= i < |data| => data[i].1)
  }

  function Size(blocks: seq<Block>): (n: nat)
    ensures n == |Fit(blocks)|
  {
    if blocks == [] then 0 else Size(blocks[..|blocks| - 1]) + blocks[|blocks| - 1].count
  }

  /** One diagram point per block: mean forecast over the block's window, fitted rate, size. */
  function Curve(blocks: seq<Block>, forecasts: seq<real>): seq<Bin>
    requires Size(blocks) == |forecasts|
  {
    if blocks == [] then []
    else
      var b := blocks[|blocks| - 1];
      var cut := |forecasts| - b.count;
      Curve(blocks[..|blocks| - 1], forecasts[..cut])
      + [Bin(Average(Sum(forecasts[cut..]), b.count), b.Mean(), b.count)]
  }

  function Soft(v: real): real { v * (1.0 - v) }

  /** The report from the raw sums: squared errors of forecast and fit, and the outcome total. */
  function Assemble(count: nat, forecastError: real, fitError: real, total: real,
                    curve: seq<Bin>): Report
    requires count > 0
  {
    var forecastBrier, fitBrier := Average(forecastError, count), Average(fitError, count);
    var uncertainty := Soft(Average(total, count));
    Report(count, forecastBrier - fitBrier, uncertainty - fitBrier, uncertainty, forecastBrier,
           curve)
  }

  ghost function ReportOf(data: seq<Row>): (r: Report)
    requires data != []
  {
    var f, y, blocks := Forecasts(data), Outcomes(data), Pav(Outcomes(data));
    PavCovers(y);
    FitLength(blocks, y);
    Assemble(|data|, SqDist(f, y), SqDist(Fit(blocks), y), Sum(y), Curve(blocks, f))
  }

  /** The cursor loop over the pooled blocks. */
  method Diagram(pooled: seq<(real, nat)>, forecasts: seq<real>, ghost blocks: seq<Block>)
    returns (curve: seq<Bin>, fitted: seq<real>)
    requires pooled == MeansAndSizes(blocks) && Size(blocks) == |forecasts|
    ensures curve == Curve(blocks, forecasts) && fitted == Fit(blocks)
  {
    hide Average, Block.Mean;
    curve, fitted := [], [];
    var index := 0;
    for k := 0 to |pooled|
      invariant index == Size(blocks[..k]) <= |forecasts|
      invariant fitted == Fit(blocks[..k])
      invariant curve == Curve(blocks[..k], forecasts[..index])
    {
      var (rate, size) := pooled[k];
      assert blocks[..k + 1][..k] == blocks[..k];
      SizeMonotone(blocks, k + 1);
      var window := forecasts[index..index + size];
      assert forecasts[..index + size][index..] == window;
      assert forecasts[..index + size][..index] == forecasts[..index];
      curve := curve + [Bin(Average(Sum(window), size), rate, size)];
      fitted := fitted + Repeat(rate, size);
      index := index + size;
    }
    assert blocks[..|blocks|] == blocks && forecasts[..|forecasts|] == forecasts;
  }

  method CorpReliability(bets: seq<Bet>) returns (r: Option<Report>)
    ensures r.None? <==> Scored(bets) == []
    ensures r.Some? ==> Data(bets) != [] && r.value == ReportOf(Data(bets))
  {
    var rows := Scored(bets);
    SortKeeps(rows, RowLe);
    if rows == [] { return None; }
    var data := Sort(rows, RowLe);
    var forecasts, outcomes := Forecasts(data), Outcomes(data);
    PavCovers(outcomes);
    FitLength(Pav(outcomes), outcomes);
    var pooled := PavBlocks(outcomes);
    var curve, fitted := Diagram(pooled, forecasts, Pav(outcomes));
    r := Some(Assemble(|outcomes|, SqDist(forecasts, outcomes), SqDist(fitted, outcomes),
                       Sum(outcomes), curve));
  }

  lemma {:induction false} SizeMonotone(blocks: seq<Block>, k: nat)
    requires k <= |blocks|
    ensures Size(blocks[..k]) <= Size(blocks)
    decreases |blocks|
  {
    if k < |blocks| {
      assert blocks[..|blocks| - 1][..k] == blocks[..k];
      SizeMonotone(blocks[..|blocks| - 1], k);
    } else {
      assert blocks[..k] == blocks;
    }
  }

  // ---- the decomposition -----------------------------------------------------------------

  /** Sum of y(1 - y): zero exactly when every outcome is 0 or 1 (given outcomes in [0,1]). */
  function Softness(y: seq<real>): real {
    if y == [] then 0.0
    else Softness(y[..|y| - 1]) + Soft(y[|y| - 1])
  }

  lemma ProductNonNegative(a: real, b: real, product: real)
    requires a >= 0.0 && b >= 0.0 && product == a * b
    ensures product >= 0.0
  {
  }

  lemma SoftSign(v: real)
    requires 0.0 <= v <= 1.0
    ensures Soft(v) >= 0.0
  {
    ProductNonNegative(v, 1.0 - v, Soft(v));
  }

  lemma {:induction false} SoftnessSign(y: seq<real>)
    requires forall i | 0 <= i < |y| :: 0.0 <= y[i] <= 1.0
    ensures Softness(y) >= 0.0
    ensures (forall i | 0 <= i < |y| :: y[i] == 0.0 || y[i] == 1.0) ==> Softness(y) == 0.0
  {
    if y != [] {
      SoftnessSign(y[..|y| - 1]);
      SoftSign(y[|y| - 1]);
    }
  }

  /** Against a constant, the cross term of the fit vanishes block by block. */
  lemma {:induction false} CrossConstant(w: seq<real>, m: real, c: real, k: nat)
    requires k <= |w|
    ensures Cross(w[..k], Repeat(m, k), Repeat(c, k)) == Excess(w, m, k) * (m - c)
  {
    if k > 0 {
      CrossConstant(w, m, c, k - 1);
      CrossStep(w, m, Repeat(c, |w|), k - 1);
      assert Repeat(c, |w|)[..k] == Repeat(c, k) && Repeat(c, |w|)[..k - 1] == Repeat(c, k - 1);
    }
  }

  lemma BlockCrossConstant(w: seq<real>, m: real, c: real)
    requires Dominated(w, m)
    ensures Cross(w, Repeat(m, |w|), Repeat(c, |w|)) == 0.0
  {
    CrossConstant(w, m, c, |w|);
    assert w[..|w|] == w;
  }

  lemma FitLast(blocks: seq<Block>, y: seq<real>)
    requires Covers(blocks, y) && blocks != []
    ensures var n, b := |blocks| - 1, blocks[|blocks| - 1];
      && b.count <= |y| && Covers(blocks[..n], y[..|y| - b.count]) && Dominated(y[|y| - b.count..], b.Mean())
      && Fit(blocks) == Fit(blocks[..n]) + Repeat(b.Mean(), b.count)
  {
    hide Dominated, Block.Mean;
  }

  lemma {:induction false} FitCrossConstant(blocks: seq<Block>, y: seq<real>, c: real)
    requires Covers(blocks, y)
    ensures |Fit(blocks)| == |y| && Cross(y, Fit(blocks), Repeat(c, |y|)) == 0.0
  {
    hide Term, Block.Mean;
    FitLength(blocks, y);
    if blocks != [] {
      FitLast(blocks, y);
      hide Cross, Covers, Fit, Dominated;
      var n, b := |blocks| - 1, blocks[|blocks| - 1];
      var cut := |y| - b.count;
      var w := y[cut..];
      FitCrossConstant(blocks[..n], y[..cut], c);
      BlockCrossConstant(w, b.Mean(), c);
      CrossConcat(y[..cut], Fit(blocks[..n]), Repeat(c, cut),
                  w, Repeat(b.Mean(), b.count), Repeat(c, b.count));
      assert y == y[..cut] + w;
      assert Repeat(c, |y|) == Repeat(c, cut) + Repeat(c, b.count);
    }
  }

  /** What the squared distance to c plus the softness comes to, from the sum and the length. */
  function Spread(c: real, sum: real, n: nat): real {
    sum * (1.0 - 2.0 * c) + n as real * (c * c)
  }

  lemma SpreadStep(c: real, sum: real, v: real, n: nat)
    ensures Spread(c, sum + v, n + 1) == Spread(c, sum, n) + (Sq(v - c) + Soft(v))
  {
    assert (n + 1) as real == n as real + 1.0;
    assert Sq(v - c) + Soft(v) == v * (1.0 - 2.0 * c) + c * c;
  }

  lemma {:induction false} DistToConstant(y: seq<real>, c: real)
    ensures SqDist(y, Repeat(c, |y|)) + Softness(y) == Spread(c, Sum(y), |y|)
  {
    hide Sq, Soft, Spread;
    if y == [] {
      SpreadEmpty(c);
    } else {
      var n, v := |y| - 1, y[|y| - 1];
      DistToConstant(y[..n], c);
      assert Repeat(c, |y|)[..n] == Repeat(c, n);
      SpreadStep(c, Sum(y[..n]), v, n);
    }
  }

  lemma SpreadEmpty(c: real)
    ensures Spread(c, 0.0, 0) == 0.0
  {
  }

  lemma SpreadAtBaseRate(base: real, sum: real, n: nat)
    requires base * n as real == sum
    ensures Spread(base, sum, n) == Soft(base) * n as real
  {
  }

  /** The base rate's uncertainty is the mean squared distance to it, plus the softness. */
  lemma BaseRateUncertainty(y: seq<real>, base: real)
    requires y != [] && base == Average(Sum(y), |y|)
    ensures Soft(base) == Average(SqDist(y, Repeat(base, |y|)) + Softness(y), |y|)
  {
    hide Sq, Soft, Spread, Average;
    DistToConstant(y, base);
    SpreadAverage(base, Sum(y), |y|);
  }

  lemma SpreadAverage(base: real, sum: real, n: nat)
    requires n > 0 && base == Average(sum, n)
    ensures Soft(base) == Average(Spread(base, sum, n), n)
  {
    hide Soft, Spread, Average;
    AverageInverse(sum, n);
    AverageInverse(Spread(base, sum, n), n);
    SpreadAtBaseRate(base, sum, n);
    SameQuotient(Soft(base), Average(Spread(base, sum, n), n), n as real, Spread(base, sum, n));
  }

  lemma SameQuotient(a: real, b: real, n: real, product: real)
    requires n > 0.0 && product == a * n && product == b * n
    ensures a == b
  {
    if a > b { MulStrict(a, b, n); } else if a < b { MulStrict(b, a, n); }
  }

  lemma ForecastsMonotone(rows: seq<Row>)
    ensures Monotone(Forecasts(Sort(rows, RowLe)))
  {
    SortSorts(rows, RowLe);
  }

  lemma FitFacts(data: seq<Row>, x: seq<real>, c: real)
    requires Monotone(Forecasts(data)) && x == Fit(Pav(Outcomes(data)))
    ensures var f, y := Forecasts(data), Outcomes(data);
      && |x| == |y|
      && SqDist(f, y) >= SqDist(x, y) + SqDist(x, f)
      && SqDist(y, Repeat(c, |y|)) == SqDist(x, y) + SqDist(x, Repeat(c, |y|))
  {
    var f, y := Forecasts(data), Outcomes(data);
    PavCovers(y);
    FitIsProjection(y);
    SqDistSymmetric(x, y);
    SqDistSymmetric(f, y);
    FitCrossConstant(Pav(y), y, c);
    Expand(y, x, Repeat(c, |y|));
  }

  /** The report's terms from the mean squared errors of forecast and fit. */
  lemma ReportTerms(data: seq<Row>)
    requires data != [] && Monotone(Forecasts(data))
    ensures var r, f, y, n := ReportOf(data), Forecasts(data), Outcomes(data), |data|;
      var x := Fit(Pav(y));
      && |x| == |y| == |f| == n
      && r.meanBrier == Average(SqDist(f, y), n) && r.uncertainty == Soft(Average(Sum(y), n))
      && r.miscalibration == r.meanBrier - Average(SqDist(x, y), n)
      && r.discrimination == r.uncertainty - Average(SqDist(x, y), n)
  {
    hide Sq, Soft, Average;
    FitFacts(data, Fit(Pav(Outcomes(data))), 0.0);
  }

  lemma MiscalibrationTerm(data: seq<Row>)
    requires data != [] && Monotone(Forecasts(data))
    ensures var r, f, n := ReportOf(data), Forecasts(data), |data|;
      var x := Fit(Pav(Outcomes(data)));
      && |x| == |f|
      && r.miscalibration >= Average(SqDist(x, f), n) >= 0.0
      && (r.miscalibration == 0.0 <==> f == x)
  {
    hide Sq, Soft, Average, ReportOf, SqDist, Fit, Pav, Forecasts, Outcomes, Monotone;
    var f, y, n := Forecasts(data), Outcomes(data), |data|;
    var x := Fit(Pav(y));
    ReportTerms(data);
    FitFacts(data, x, 0.0);
    SqDistZero(x, f);
    ExcessAverage(SqDist(f, y), SqDist(x, y), SqDist(x, f), n);
  }

  /** An error that exceeds another by at least c exceeds it on average by at least c's average. */
  lemma ExcessAverage(a: real, b: real, c: real, n: nat)
    requires n > 0 && a >= b + c && c >= 0.0
    ensures Average(a, n) - Average(b, n) >= Average(c, n) >= 0.0
    ensures Average(a, n) - Average(b, n) == 0.0 <==> a == b
  {
    hide Average;
    AverageLinear(a, b, n);
    AverageLinear(a - b, c, n);
    AverageSign(a - b - c, n);
    AverageSign(a - b, n);
    AverageSign(c, n);
  }

  lemma DiscriminationTerm(data: seq<Row>)
    requires data != [] && Monotone(Forecasts(data))
    ensures var y, n := Outcomes(data), |data|;
      var x, flat := Fit(Pav(y)), Repeat(Average(Sum(y), n), n);
      |x| == |flat| && ReportOf(data).discrimination == Average(SqDist(x, flat) + Softness(y), n)
  {
    hide Sq, Soft, Average, ReportOf, SqDist;
    var y, n := Outcomes(data), |data|;
    var x, base := Fit(Pav(y)), Average(Sum(y), n);
    ReportTerms(data);
    FitFacts(data, x, base);
    BaseRateUncertainty(y, base);
    AverageLinear(SqDist(y, Repeat(base, n)) + Softness(y), SqDist(x, y), n);
  }

  /**
   The decomposition is exact, each term is a mean squared distance, and miscalibration vanishes
   exactly when the forecasts already are their own recalibration. `discrimination` keeps the
   softness of outcomes that are neither 0 nor 1.
   */
  lemma Decomposition(bets: seq<Bet>)
    requires Data(bets) != []
    ensures var data := Data(bets);
      var r, f, y, n := ReportOf(data), Forecasts(data), Outcomes(data), |data|;
      var x, base := Fit(Pav(y)), Average(Sum(y), n);
      && r.meanBrier == r.miscalibration - r.discrimination + r.uncertainty
      && r.meanBrier == Average(SqDist(f, y), n)
      && |x| == |y|
      && r.miscalibration >= Average(SqDist(x, f), n) >= 0.0
      && (r.miscalibration == 0.0 <==> f == x)
      && r.discrimination == Average(SqDist(x, Repeat(base, n)) + Softness(y), n)
  {
    hide Sq, Soft, Average, ReportOf, SqDist, Softness, Fit, Pav, Sum;
    ForecastsMonotone(Scored(bets));
    ReportTerms(Data(bets));
    MiscalibrationTerm(Data(bets));
    DiscriminationTerm(Data(bets));
  }

  /**
   With outcomes in [0,1] discrimination and uncertainty are non-negative, and for outcomes 0 and 1
   discrimination is zero iff the fit is flat.
   */
  lemma DiscriminationSign(bets: seq<Bet>)
    requires Data(bets) != []
    requires forall i | 0 <= i < |Data(bets)| :: 0.0 <= Data(bets)[i].1 <= 1.0
    ensures var y, r := Outcomes(Data(bets)), ReportOf(Data(bets));
      && r.discrimination >= 0.0 && r.uncertainty >= 0.0
      && ((forall i | 0 <= i < |y| :: y[i] == 0.0 || y[i] == 1.0) ==>
            (r.discrimination == 0.0 <==> Fit(Pav(y)) == Repeat(Average(Sum(y), |y|), |y|)))
  {
    var y := Outcomes(Data(bets));
    SoftnessSign(y);
    ForecastsMonotone(Scored(bets));
    hide Sq, Soft, Average, ReportOf, SqDist, Softness, Fit, Pav, Sum, Data, Outcomes, Monotone;
    var x, flat := Fit(Pav(y)), Repeat(Average(Sum(y), |y|), |y|);
    ReportTerms(Data(bets));
    DiscriminationTerm(Data(bets));
    BaseRateUncertainty(y, Average(Sum(y), |y|));
    SpreadSign(x, flat, Softness(y));
    SpreadSign(y, flat, Softness(y));
  }

  lemma SpreadSign(a: seq<real>, b: seq<real>, softness: real)
    requires |a| == |b| > 0 && softness >= 0.0
    ensures Average(SqDist(a, b) + softness, |a|) >= 0.0
    ensures softness == 0.0 ==> (Average(SqDist(a, b) + softness, |a|) == 0.0 <==> a == b)
  {
    hide Average, SqDist;
    SqDistZero(a, b);
    AverageSign(SqDist(a, b) + softness, |a|);
  }

  // ---- the report does not depend on the order of the bets -------------------------------

  lemma {:induction false} ScoredCount(bets: seq<Bet>, row: Row)
    ensures multiset(Scored(bets))[row] == multiset(bets)[Bet(Some(row.0), Some(row.1))]
  {
    if bets != [] {
      var n := |bets| - 1;
      ScoredCount(bets[..n], row);
      assert bets == bets[..n] + [bets[n]];
    }
  }

  lemma OrderIndependent(a: seq<Bet>, b: seq<Bet>)
    requires multiset(a) == multiset(b) && Data(a) != []
    ensures Data(b) != [] && ReportOf(Data(a)) == ReportOf(Data(b))
  {
    forall row: Row ensures multiset(Scored(a))[row] == multiset(Scored(b))[row] {
      ScoredCount(a, row);
      ScoredCount(b, row);
    }
    assert multiset(Scored(a)) == multiset(Scored(b));
    SortPermutation(Scored(a), Scored(b), RowLe);
  }
}
