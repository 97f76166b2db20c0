/**
 What the two multiplicity tests count (app/multiplicity.py, reality_check_pvalue and romano_wolf_pvalues),
 from the raw observations on: draws of events in which some candidate's resampled mean exceeds its own
 mean by at least the advantage under test.
 */
module Resampling {
  import opened Multiplicity
  import opened Options
  import opened Ordering
  import opened RealSums

  // ---- one draw --------------------------------------------------------------------------

  /** How often the first k entries of the draw are the event i. */
  function Drawn(index: seq<nat>, i: nat, k: nat): nat
    requires k <= |index|
  {
    if k == 0 then 0 else Drawn(index, i, k - 1) + if index[k - 1] == i then 1 else 0
  }

  /** The values of the first m events, each as often as it is among the first k entries of the draw. */
  function DrawnSum(values: seq<real>, index: seq<nat>, k: nat, m: nat): real
    requires k <= |index| && m <= |values|
  {
    if m == 0 then 0.0 else DrawnSum(values, index, k, m - 1) + Times(values[m - 1], Drawn(index, m - 1, k) as real)
  }

  lemma {:induction false} NothingDrawn(values: seq<real>, index: seq<nat>, m: nat)
    requires m <= |values|
    ensures DrawnSum(values, index, 0, m) == 0.0
  {
    if m > 0 {
      NothingDrawn(values, index, m - 1);
      assert values[m - 1] * 0.0 == 0.0;
    }
  }

  lemma {:induction false} DrawOneMore(values: seq<real>, index: seq<nat>, k: nat, m: nat)
    requires 0 < k <= |index| && m <= |values|
    ensures DrawnSum(values, index, k, m)
         == DrawnSum(values, index, k - 1, m) + if index[k - 1] < m then values[index[k - 1]] else 0.0
  {
    hide Times;
    if m > 0 {
      DrawOneMore(values, index, k, m - 1);
      OneMore(values[m - 1], Drawn(index, m - 1, k - 1), Drawn(index, m - 1, k));
    }
  }

  lemma OneMore(v: real, before: nat, after: nat)
    requires before <= after <= before + 1
    ensures Times(v, after as real) == Times(v, before as real) + if after == before then 0.0 else v
  {
    if after == before + 1 { assert v * (before as real + 1.0) == v * before as real + v; }
  }

  lemma {:induction false} PickedIsDrawn(values: seq<real>, index: seq<nat>, k: nat)
    requires k <= |values| && IndexInto(index, |values|)
    ensures Picked(values, index, k) == DrawnSum(values, index, k, |values|)
  {
    if k == 0 {
      NothingDrawn(values, index, |values|);
    } else {
      PickedIsDrawn(values, index, k - 1);
      DrawOneMore(values, index, k, |values|);
    }
  }

  /** The mean of the event means is their sum over their number. */
  lemma MeanMeaning(values: seq<real>)
    requires values != []
    ensures Times(MeanOf(values), |values| as real) == SumTo(values, |values|)
  {
    AverageInverse(SumTo(values, |values|), |values|);
  }

  /** The statistic plus the mean is the mean of the values drawn, each as often as it was. */
  lemma CenteredMeaning(values: seq<real>, index: seq<nat>)
    requires values != [] && IndexInto(index, |values|)
    ensures Times(Centered(values, index) + MeanOf(values), |values| as real)
         == DrawnSum(values, index, |values|, |values|)
  {
    PickedIsDrawn(values, index, |values|);
    AverageInverse(Picked(values, index, |values|), |values|);
  }

  /** A draw of one event alone gives what that event is above the mean. */
  lemma OneEventDrawn(values: seq<real>, index: seq<nat>, i: nat)
    requires i < |values| && IndexInto(index, |values|) && forall k | 0 <= k < |index| :: index[k] == i
    ensures Centered(values, index) == values[i] - MeanOf(values)
  {
    SameDrawn(values, index, i, |values|);
    AverageOfSame(values[i], |values|);
  }

  lemma {:induction false} SameDrawn(values: seq<real>, index: seq<nat>, i: nat, k: nat)
    requires i < |values| && k <= |values| && IndexInto(index, |values|)
    requires forall k | 0 <= k < |index| :: index[k] == i
    ensures Picked(values, index, k) == values[i] * k as real
  {
    if k > 0 {
      SameDrawn(values, index, i, k - 1);
      assert values[i] * k as real == values[i] * (k - 1) as real + values[i];
    }
  }

  lemma AverageOfSame(v: real, n: nat)
    requires n > 0
    ensures Average(v * n as real, n) == v
  {
    AverageInverse(v * n as real, n);
    SameFactor(Average(v * n as real, n), v, n as real);
  }

  /** Drawing a better event in place of a worse one raises the statistic. */
  lemma BetterDraw(values: seq<real>, index: seq<nat>, j: nat, b: nat)
    requires IndexInto(index, |values|) && j < |values| && b < |values| && values[b] > values[index[j]]
    ensures IndexInto(index[j := b], |values|) && Centered(values, index[j := b]) > Centered(values, index)
  {
    var n := |values|;
    PickedReplaced(values, index, j, b, n);
    var gain := values[b] - values[index[j]];
    AverageLinear(Picked(values, index[j := b], n), Picked(values, index, n), n);
    AverageSign(gain, n);
  }

  lemma {:induction false} PickedReplaced(values: seq<real>, index: seq<nat>, j: nat, b: nat, k: nat)
    requires IndexInto(index, |values|) && j < |values| && b < |values| && k <= |values|
    ensures Picked(values, index[j := b], k)
         == Picked(values, index, k) + if j < k then values[b] - values[index[j]] else 0.0
  {
    if k > 0 { PickedReplaced(values, index, j, b, k - 1); }
  }

  // ---- counting draws --------------------------------------------------------------------

  /** The mean of the values that the draw picks. */
  function ResampledMean(values: seq<real>, index: seq<nat>): real
    requires values != []
  {
    DrawnSum(values, index, |index|, |values|) / |values| as real
  }

  /** In the draw, some candidate's resampled mean is above its mean by at least the advantage. */
  predicate Reached(matrix: map<string, seq<real>>, names: seq<string>, draw: seq<nat>, advantage: real)
    requires forall name | name in names :: name in matrix && matrix[name] != []
  {
    exists name | name in names :: ResampledMean(matrix[name], draw) - MeanOf(matrix[name]) >= advantage
  }

  /** The number of the first k draws in which it is reached. */
  function Reaching(matrix: map<string, seq<real>>, names: seq<string>, draws: seq<seq<nat>>, advantage: real,
                    k: nat): nat
    requires (forall name | name in names :: name in matrix && matrix[name] != []) && k <= |draws|
  {
    if k == 0 then 0
    else Reaching(matrix, names, draws, advantage, k - 1)
         + if Reached(matrix, names, draws[k - 1], advantage) then 1 else 0
  }

  /** One added to that count and to the number of draws. */
  function ShareReaching(matrix: map<string, seq<real>>, names: seq<string>, draws: seq<seq<nat>>,
                         advantage: real): real
    requires forall name | name in names :: name in matrix && matrix[name] != []
  {
    (Reaching(matrix, names, draws, advantage, |draws|) + 1) as real / (|draws| + 1) as real
  }

  /** The rows are the statistics of the draws. */
  ghost predicate Rows(rows: seq<Scores>, matrix: map<string, seq<real>>, names: seq<string>, draws: seq<seq<nat>>) {
    && |rows| == |draws|
    && (forall name | name in names :: name in matrix && matrix[name] != [])
    && (forall d, name | 0 <= d < |draws| && name in names ::
          IndexInto(draws[d], |matrix[name]|) && Of(rows[d], name) == Centered(matrix[name], draws[d]))
  }

  lemma CenteredIsResampled(values: seq<real>, index: seq<nat>)
    requires values != [] && IndexInto(index, |values|)
    ensures Centered(values, index) == ResampledMean(values, index) - MeanOf(values)
  {
    PickedIsDrawn(values, index, |values|);
  }

  lemma {:induction false} ExceedCounts(rows: seq<Scores>, matrix: map<string, seq<real>>, names: seq<string>,
                                        draws: seq<seq<nat>>, advantage: real, k: nat)
    requires names != [] && Rows(rows, matrix, names, draws) && k <= |rows|
    ensures Exceed(rows, names, advantage, k) == Reaching(matrix, names, draws, advantage, k)
  {
    hide MaxOver, Centered, ResampledMean;
    if k > 0 {
      ExceedCounts(rows, matrix, names, draws, advantage, k - 1);
      MaxReaches(rows[k - 1], names, advantage);
      forall name | name in names
        ensures Of(rows[k - 1], name) == ResampledMean(matrix[name], draws[k - 1]) - MeanOf(matrix[name])
      {
        CenteredIsResampled(matrix[name], draws[k - 1]);
      }
    }
  }

  lemma PValueIsShare(rows: seq<Scores>, matrix: map<string, seq<real>>, names: seq<string>, draws: seq<seq<nat>>,
                      advantage: real)
    requires names != [] && Rows(rows, matrix, names, draws)
    ensures PValue(Exceed(rows, names, advantage, |rows|), |rows|) == ShareReaching(matrix, names, draws, advantage)
  {
    hide Exceed, Reaching;
    ExceedCounts(rows, matrix, names, draws, advantage, |rows|);
  }

  // ---- the two tests ---------------------------------------------------------------------

  /** The draws pick events by their place among the distinct ones. */
  ghost predicate DrawsOf(draws: seq<seq<nat>>, ids: seq<string>) {
    forall d | 0 <= d < |draws| :: IndexInto(draws[d], |Dedup(ids)|)
  }

  /** The matrix of event means that the raw observations give. */
  ghost predicate MeansOf(matrix: map<string, seq<real>>, events: seq<string>, diffs: seq<(string, seq<real>)>,
                          ids: seq<string>) {
    && SortedBy(events, StringLe) && Distinct(events) && (forall e :: e in events <==> e in ids)
    && forall i | 0 <= i < |diffs| ::
         && |diffs[i].1| == |ids| && diffs[i].0 in matrix && |matrix[diffs[i].0]| == |events|
         && forall j | 0 <= j < |events| :: matrix[diffs[i].0][j] == EventMean(diffs[i].1, ids, events[j])
  }

  /** The inputs that both tests refuse. */
  predicate Refused(diffs: seq<(string, seq<real>)>, ids: seq<string>) {
    diffs == [] || ids == [] || exists i | 0 <= i < |diffs| :: |diffs[i].1| != |ids|
  }

  method Resample(diffs: seq<(string, seq<real>)>, ids: seq<string>, draws: seq<seq<nat>>)
    returns (candidates: seq<string>, observed: Scores, rows: seq<Scores>, ghost matrix: map<string, seq<real>>,
             ghost events: seq<string>)
    requires Distinct(Names(diffs)) && DrawsOf(draws, ids) && !Refused(diffs, ids)
    ensures candidates == Sort(Names(diffs), StringLe) && candidates != [] && Distinct(candidates)
    ensures forall name :: name in candidates <==> name in Names(diffs)
    ensures MeansOf(matrix, events, diffs, ids) && Rows(rows, matrix, candidates, draws)
    ensures forall name | name in candidates :: Of(observed, name) == MeanOf(matrix[name])
  {
    hide Centered, Sort, StringLe, EventMean, Dedup;
    var prepared := Prepare(diffs, ids);
    candidates, matrix, events := prepared.value.candidates, prepared.value.matrix, prepared.value.events;
    CandidateNames(diffs);
    EventsCount(events, ids);
    assert forall name | name in candidates :: name in matrix && |matrix[name]| == |events|;
    observed := Observed(candidates, prepared.value.matrix);
    rows := Bootstrap(candidates, prepared.value.matrix, observed, draws, |prepared.value.events|);
  }

  lemma CandidateNames(diffs: seq<(string, seq<real>)>)
    requires Distinct(Names(diffs)) && diffs != []
    ensures var candidates := Sort(Names(diffs), StringLe);
      && candidates != [] && Distinct(candidates) && (forall name :: name in candidates <==> name in Names(diffs))
      && forall name | name in candidates :: exists i | 0 <= i < |diffs| :: diffs[i].0 == name
  {
    var candidates := Sort(Names(diffs), StringLe);
    SortDistinct(Names(diffs), StringLe);
    forall name ensures name in candidates <==> name in Names(diffs) { SortMembers(Names(diffs), StringLe, name); }
    assert Names(diffs)[0] in candidates;
    forall name | name in candidates ensures exists i | 0 <= i < |diffs| :: diffs[i].0 == name {
      assert name in Names(diffs);
    }
  }

  lemma EventsCount(events: seq<string>, ids: seq<string>)
    requires Distinct(events) && ids != [] && forall e :: e in events <==> e in ids
    ensures |events| == |Dedup(ids)| && events != []
  {
    SameSize(events, Dedup(ids));
    assert ids[0] in events;
  }

  lemma {:induction false} SameSize(a: seq<string>, b: seq<string>)
    requires Distinct(a) && Distinct(b) && forall e :: e in a <==> e in b
    ensures |a| == |b|
  {
    SetSize(a);
    SetSize(b);
    assert (set e | e in a) == (set e | e in b);
  }

  lemma {:induction false} SetSize(s: seq<string>)
    requires Distinct(s)
    ensures |set e | e in s| == |s|
  {
    if s == [] {
      assert (set e | e in s) == {};
    } else {
      var n := |s| - 1;
      SetSize(s[..n]);
      assert s == s[..n] + [s[n]] && s[n] !in s[..n];
      assert (set e | e in s) == (set e | e in s[..n]) + {s[n]};
    }
  }

  /** White's test of the raw observations: how often chance alone reaches the best candidate's mean advantage. */
  method RealityCheckPValue(diffs: seq<(string, seq<real>)>, ids: seq<string>, draws: seq<seq<nat>>)
    returns (p: Option<real>, ghost matrix: map<string, seq<real>>, ghost events: seq<string>)
    requires Distinct(Names(diffs)) && DrawsOf(draws, ids)
    ensures p.None? <==> Refused(diffs, ids)
    ensures p.Some? ==> MeansOf(matrix, events, diffs, ids) && events != []
    ensures p.Some? ==> exists i | 0 <= i < |diffs| ::
              && p.value == ShareReaching(matrix, Names(diffs), draws, MeanOf(matrix[diffs[i].0]))
              && forall j | 0 <= j < |diffs| :: MeanOf(matrix[diffs[j].0]) <= MeanOf(matrix[diffs[i].0])
  {
    matrix, events := map[], [];
    if Refused(diffs, ids) { return None, matrix, events; }
    hide ShareReaching, Rows, Sort, StringLe, Dedup, EventMean, MeanOf, Exceed, PValue, MaxOver;
    var candidates, observed, rows;
    candidates, observed, rows, matrix, events := Resample(diffs, ids, draws);
    var best := RealityCheck(candidates, observed, rows);
    p := Some(best);
    Listed(diffs, candidates, matrix, events, ids);
    var top := MaxOver(observed, candidates);
    PValueIsShare(rows, matrix, candidates, draws, top);
    ShareSame(matrix, candidates, Names(diffs), draws, top);
    BestMean(diffs, candidates, observed, matrix, top);
  }

  lemma Listed(diffs: seq<(string, seq<real>)>, candidates: seq<string>, matrix: map<string, seq<real>>,
               events: seq<string>, ids: seq<string>)
    requires MeansOf(matrix, events, diffs, ids) && ids != []
    requires forall name :: name in candidates <==> name in Names(diffs)
    ensures events != [] && forall name | name in Names(diffs) :: name in matrix && matrix[name] != []
  {
    hide EventMean;
    assert ids[0] in events;
  }

  lemma BestMean(diffs: seq<(string, seq<real>)>, candidates: seq<string>, observed: Scores,
                 matrix: map<string, seq<real>>, top: real)
    requires candidates != [] && (forall name :: name in candidates <==> name in Names(diffs))
    requires forall name | name in candidates :: name in matrix && matrix[name] != []
                                                 && Of(observed, name) == MeanOf(matrix[name])
    requires top == MaxOver(observed, candidates)
    ensures forall i | 0 <= i < |diffs| :: diffs[i].0 in matrix && matrix[diffs[i].0] != []
    ensures exists i | 0 <= i < |diffs| ::
              && top == MeanOf(matrix[diffs[i].0])
              && forall j | 0 <= j < |diffs| :: MeanOf(matrix[diffs[j].0]) <= MeanOf(matrix[diffs[i].0])
  {
    hide MeanOf, MaxOver;
    forall i | 0 <= i < |diffs| ensures diffs[i].0 in candidates { assert Names(diffs)[i] in Names(diffs); }
    MaxReaches(observed, candidates, top);
    var best :| best in candidates && Of(observed, best) >= top;
    MaxReaches(observed, candidates, Of(observed, best));
    var i :| 0 <= i < |Names(diffs)| && Names(diffs)[i] == best;
    forall j | 0 <= j < |diffs| ensures MeanOf(matrix[diffs[j].0]) <= top {
      MaxReaches(observed, candidates, Of(observed, diffs[j].0));
    }
  }

  lemma {:induction false} ReachingSame(matrix: map<string, seq<real>>, a: seq<string>, b: seq<string>,
                                        draws: seq<seq<nat>>, advantage: real, k: nat)
    requires forall name :: name in a <==> name in b
    requires (forall name | name in a :: name in matrix && matrix[name] != []) && k <= |draws|
    ensures Reaching(matrix, a, draws, advantage, k) == Reaching(matrix, b, draws, advantage, k)
  {
    if k > 0 { ReachingSame(matrix, a, b, draws, advantage, k - 1); }
  }

  lemma ShareSame(matrix: map<string, seq<real>>, a: seq<string>, b: seq<string>, draws: seq<seq<nat>>,
                  advantage: real)
    requires forall name :: name in a <==> name in b
    requires forall name | name in a :: name in matrix && matrix[name] != []
    ensures ShareReaching(matrix, a, draws, advantage) == ShareReaching(matrix, b, draws, advantage)
  {
    ReachingSame(matrix, a, b, draws, advantage, |draws|);
  }

  /** The names by decreasing mean advantage, ties by name. */
  ghost predicate Ranked(order: seq<string>, matrix: map<string, seq<real>>) {
    && Distinct(order) && (forall name | name in order :: name in matrix && matrix[name] != [])
    && forall i, j | 0 <= i < j < |order| ::
         var a, b := MeanOf(matrix[order[i]]), MeanOf(matrix[order[j]]);
         a > b || (a == b && StringLe(order[i], order[j]))
  }

  /** The share for the name at place j against the names from there on. */
  ghost function StepShare(matrix: map<string, seq<real>>, order: seq<string>, draws: seq<seq<nat>>, j: nat): real
    requires j < |order| && forall name | name in order :: name in matrix && matrix[name] != []
  {
    ShareReaching(matrix, order[j..], draws, MeanOf(matrix[order[j]]))
  }

  /** p is the largest of the shares up to place k. */
  ghost predicate LargestUpTo(p: real, matrix: map<string, seq<real>>, order: seq<string>, draws: seq<seq<nat>>, k: nat)
    requires k < |order| && forall name | name in order :: name in matrix && matrix[name] != []
  {
    && (exists j | 0 <= j <= k :: p == StepShare(matrix, order, draws, j))
    && forall j | 0 <= j <= k :: StepShare(matrix, order, draws, j) <= p
  }

  /** The stepdown of the raw observations: each candidate's share, and never less than a better candidate's. */
  method RomanoWolfPValues(diffs: seq<(string, seq<real>)>, ids: seq<string>, draws: seq<seq<nat>>)
    returns (adjusted: Option<Scores>, ghost matrix: map<string, seq<real>>, ghost events: seq<string>,
             ghost order: seq<string>)
    requires Distinct(Names(diffs)) && DrawsOf(draws, ids)
    ensures adjusted.None? <==> Refused(diffs, ids)
    ensures adjusted.Some? ==> MeansOf(matrix, events, diffs, ids) && Ranked(order, matrix)
    ensures adjusted.Some? ==> forall name :: name in adjusted.value <==> name in Names(diffs)
    ensures adjusted.Some? ==> forall name :: name in order <==> name in Names(diffs)
    ensures adjusted.Some? ==> forall k | 0 <= k < |order| ::
              LargestUpTo(Of(adjusted.value, order[k]), matrix, order, draws, k)
  {
    matrix, events, order := map[], [], [];
    if Refused(diffs, ids) { return None, matrix, events, order; }
    hide Rows, Sort, StringLe, Dedup, EventMean, MeanOf, Order, Running, LargestUpTo, Ranked;
    var candidates, observed, rows;
    candidates, observed, rows, matrix, events := Resample(diffs, ids, draws);
    var scores := RomanoWolf(candidates, observed, rows);
    adjusted := Some(scores);
    order := Order(candidates, observed);
    OrderRanked(candidates, observed, matrix, rows, draws);
    forall k | 0 <= k < |order| ensures LargestUpTo(Of(scores, order[k]), matrix, order, draws, k) {
      RunningLargest(rows, matrix, order, observed, draws, k);
    }
  }

  lemma OrderRanked(candidates: seq<string>, observed: Scores, matrix: map<string, seq<real>>, rows: seq<Scores>,
                    draws: seq<seq<nat>>)
    requires Distinct(candidates) && Rows(rows, matrix, candidates, draws)
    requires forall name | name in candidates :: Of(observed, name) == MeanOf(matrix[name])
    ensures var order := Order(candidates, observed);
      && Ranked(order, matrix) && (forall name :: name in order <==> name in candidates)
      && Rows(rows, matrix, order, draws) && forall name | name in order :: Of(observed, name) == MeanOf(matrix[name])
  {
    hide MeanOf, Centered;
    var order := Order(candidates, observed);
    OrderDistinct(candidates, observed);
    BetterOrders(observed);
    SortSorts(candidates, Better(observed));
    forall i, j | 0 <= i < j < |order|
      ensures var a, b := MeanOf(matrix[order[i]]), MeanOf(matrix[order[j]]);
              a > b || (a == b && StringLe(order[i], order[j]))
    {
      assert order[i] in candidates && order[j] in candidates && Better(observed)(order[i], order[j]);
    }
  }

  lemma RowsTail(rows: seq<Scores>, matrix: map<string, seq<real>>, order: seq<string>, draws: seq<seq<nat>>, j: nat)
    requires j <= |order| && Rows(rows, matrix, order, draws)
    ensures Rows(rows, matrix, order[j..], draws)
  {
    hide Centered;
    assert forall name | name in order[j..] :: name in order;
  }

  lemma StepIsShare(rows: seq<Scores>, matrix: map<string, seq<real>>, order: seq<string>, observed: Scores,
                    draws: seq<seq<nat>>, j: nat)
    requires j < |order| && Rows(rows, matrix, order, draws)
    requires forall name | name in order :: Of(observed, name) == MeanOf(matrix[name])
    ensures StepValue(rows, order, observed, j) == StepShare(matrix, order, draws, j)
  {
    hide MeanOf, Exceed, PValue, ShareReaching;
    RowsTail(rows, matrix, order, draws, j);
    PValueIsShare(rows, matrix, order[j..], draws, Of(observed, order[j]));
  }

  lemma SharePositive(matrix: map<string, seq<real>>, names: seq<string>, draws: seq<seq<nat>>, advantage: real)
    requires forall name | name in names :: name in matrix && matrix[name] != []
    ensures ShareReaching(matrix, names, draws, advantage) > 0.0
  {
    hide Reaching;
  }

  lemma {:induction false} RunningLargest(rows: seq<Scores>, matrix: map<string, seq<real>>, order: seq<string>,
                                          observed: Scores, draws: seq<seq<nat>>, k: nat)
    requires k < |order| && Rows(rows, matrix, order, draws)
    requires forall name | name in order :: Of(observed, name) == MeanOf(matrix[name])
    ensures LargestUpTo(Running(rows, order, observed, k + 1), matrix, order, draws, k)
  {
    hide Rows, StepValue, MeanOf, ShareReaching;
    RowsNamed(rows, matrix, order, draws);
    StepIsShare(rows, matrix, order, observed, draws, k);
    if k == 0 {
      SharePositive(matrix, order[0..], draws, MeanOf(matrix[order[0]]));
      assert Running(rows, order, observed, 0) == 0.0;
      assert Running(rows, order, observed, 1) == StepShare(matrix, order, draws, 0);
    } else {
      RunningLargest(rows, matrix, order, observed, draws, k - 1);
    }
  }

  lemma RowsNamed(rows: seq<Scores>, matrix: map<string, seq<real>>, order: seq<string>, draws: seq<seq<nat>>)
    requires Rows(rows, matrix, order, draws)
    ensures forall name | name in order :: name in matrix && matrix[name] != []
  {
    hide Centered;
  }
}
