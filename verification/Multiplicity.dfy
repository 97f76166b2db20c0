/**
 Familywise multiplicity control (app/multiplicity.py): per-event means, the centred bootstrap over
 given index draws, White's Reality Check and the Romano-Wolf stepdown.
 */
module Multiplicity {
  import opened Options
  import opened Ordering
  import opened RealSums

  type Scores = map<string, real>

  function Of(scores: Scores, name: string): real { if name in scores then scores[name] else 0.0 }

  // ---- per-event means -------------------------------------------------------------------

  function EventSum(values: seq<real>, ids: seq<string>, event: string, k: nat): real
    requires k <= |values| && k <= |ids|
  {
    if k == 0 then 0.0 else EventSum(values, ids, event, k - 1) + if ids[k - 1] == event then values[k - 1] else 0.0
  }

  function EventCount(ids: seq<string>, event: string, k: nat): nat
    requires k <= |ids|
  {
    if k == 0 then 0 else EventCount(ids, event, k - 1) + if ids[k - 1] == event then 1 else 0
  }

  lemma {:induction false} CountPositive(ids: seq<string>, event: string, k: nat)
    requires k <= |ids| && event in ids[..k]
    ensures EventCount(ids, event, k) > 0
  {
    if ids[k - 1] != event {
      assert event in ids[..k - 1];
      CountPositive(ids, event, k - 1);
    }
  }

  function EventMean(values: seq<real>, ids: seq<string>, event: string): real
    requires |values| == |ids| && event in ids
  {
    CountPositive(ids, event, |ids|);
    Average(EventSum(values, ids, event, |ids|), EventCount(ids, event, |ids|))
  }

  method PerEventMeans(values: seq<real>, ids: seq<string>, events: seq<string>) returns (means: seq<real>)
    requires |values| == |ids| && forall e | e in events :: e in ids
    ensures |means| == |events|
    ensures forall j | 0 <= j < |events| :: means[j] == EventMean(values, ids, events[j])
  {
    var sums: map<string, real> := map[];
    var counts: map<string, nat> := map[];
    for i := 0 to |ids|
      invariant sums.Keys == counts.Keys == set e | e in ids[..i]
      invariant forall e | e in sums :: sums[e] == EventSum(values, ids, e, i) && counts[e] == EventCount(ids, e, i)
      invariant forall e: string | e !in sums :: EventSum(values, ids, e, i) == 0.0 && EventCount(ids, e, i) == 0
    {
      var e := ids[i];
      assert ids[..i + 1] == ids[..i] + [e];
      sums := sums[e := Of(sums, e) + values[i]];
      counts := counts[e := (if e in counts then counts[e] else 0) + 1];
    }
    assert ids[..|ids|] == ids;
    means := [];
    for j := 0 to |events|
      invariant |means| == j
      invariant forall i | 0 <= i < j :: means[i] == EventMean(values, ids, events[i])
    {
      CountPositive(ids, events[j], |ids|);
      means := means + [Average(sums[events[j]], counts[events[j]])];
    }
  }

  /** The event sums over the first m events. */
  function EventTotals(values: seq<real>, ids: seq<string>, events: seq<string>, k: nat, m: nat): real
    requires k <= |values| && k <= |ids| && m <= |events|
  {
    if m == 0 then 0.0 else EventTotals(values, ids, events, k, m - 1) + EventSum(values, ids, events[m - 1], k)
  }

  lemma {:induction false} TotalsGrow(values: seq<real>, ids: seq<string>, events: seq<string>, k: nat, m: nat)
    requires 0 < k <= |values| && k <= |ids| && m <= |events| && Distinct(events)
    ensures EventTotals(values, ids, events, k, m) ==
            EventTotals(values, ids, events, k - 1, m) + if ids[k - 1] in events[..m] then values[k - 1] else 0.0
  {
    if m > 0 {
      TotalsGrow(values, ids, events, k, m - 1);
      assert events[..m] == events[..m - 1] + [events[m - 1]];
    }
  }

  lemma {:induction false} TotalsStart(values: seq<real>, ids: seq<string>, events: seq<string>, m: nat)
    requires m <= |events|
    ensures EventTotals(values, ids, events, 0, m) == 0.0
  {
    if m > 0 { TotalsStart(values, ids, events, m - 1); }
  }

  /** Every observation is counted in exactly one event. */
  lemma {:induction false} ObservationsConserved(values: seq<real>, ids: seq<string>, events: seq<string>, k: nat)
    requires k <= |values| && k <= |ids| && Distinct(events) && forall i | 0 <= i < |ids| :: ids[i] in events
    ensures EventTotals(values, ids, events, k, |events|) == SumTo(values, k)
  {
    assert events[..|events|] == events;
    if k == 0 {
      TotalsStart(values, ids, events, |events|);
    } else {
      ObservationsConserved(values, ids, events, k - 1);
      TotalsGrow(values, ids, events, k, |events|);
    }
  }

  // ---- the inputs in order ---------------------------------------------------------------

  function Dedup(ids: seq<string>): (r: seq<string>)
    ensures forall e :: e in r <==> e in ids
    ensures Distinct(r)
  {
    if ids == [] then []
    else
      var before := Dedup(ids[..|ids| - 1]);
      assert ids == ids[..|ids| - 1] + [ids[|ids| - 1]];
      if ids[|ids| - 1] in before then before else before + [ids[|ids| - 1]]
  }

  lemma StringOrder()
    ensures TotalPreorder(StringLe) && Antisymmetric(StringLe)
  {
    forall a, b ensures (StringLe(a, b) || StringLe(b, a)) && (StringLe(a, b) && StringLe(b, a) ==> a == b) {
      StringTotal(a, b);
    }
    forall a, b, c | StringLe(a, b) && StringLe(b, c) ensures StringLe(a, c) { StringTransitive(a, b, c); }
  }

  lemma EventsSorted(ids: seq<string>)
    ensures SortedBy(Sort(Dedup(ids), StringLe), StringLe)
    ensures forall e :: e in Sort(Dedup(ids), StringLe) <==> e in ids
    ensures Distinct(Sort(Dedup(ids), StringLe))
  {
    StringOrder();
    SortDistinct(Dedup(ids), StringLe);
    SortSorts(Dedup(ids), StringLe);
    forall e ensures e in Sort(Dedup(ids), StringLe) <==> e in ids { SortMembers(Dedup(ids), StringLe, e); }
  }

  datatype Prepared = Prepared(candidates: seq<string>, events: seq<string>, matrix: map<string, seq<real>>)

  function Names(diffs: seq<(string, seq<real>)>): (r: seq<string>)
    ensures |r| == |diffs| && forall i | 0 <= i < |r| :: r[i] == diffs[i].0
  {
    seq(|diffs|, i requires 0 <= i < |diffs| => diffs[i].0)
  }

  /** None, for an error, without candidates or events or with a list of another length than the ids. */
  method Prepare(diffs: seq<(string, seq<real>)>, ids: seq<string>) returns (r: Option<Prepared>)
    requires Distinct(Names(diffs))
    ensures r.None? <==> diffs == [] || ids == [] || exists i | 0 <= i < |diffs| :: |diffs[i].1| != |ids|
    ensures r.Some? ==> r.value.candidates == Sort(Names(diffs), StringLe)
    ensures r.Some? ==> SortedBy(r.value.events, StringLe) && Distinct(r.value.events)
    ensures r.Some? ==> forall e :: e in r.value.events <==> e in ids
    ensures r.Some? ==> forall i | 0 <= i < |diffs| ::
                diffs[i].0 in r.value.matrix && |r.value.matrix[diffs[i].0]| == |r.value.events|
    ensures r.Some? ==> forall i, j | 0 <= i < |diffs| && 0 <= j < |r.value.events| ::
                r.value.matrix[diffs[i].0][j] == EventMean(diffs[i].1, ids, r.value.events[j])
  {
    if diffs == [] || ids == [] { return None; }
    hide Dedup, Sort, StringLe, EventMean;
    var events := Sort(Dedup(ids), StringLe);
    EventsSorted(ids);
    var matrix: map<string, seq<real>> := map[];
    for i := 0 to |diffs|
      invariant forall k | 0 <= k < i :: |diffs[k].1| == |ids|
      invariant forall k | 0 <= k < i :: diffs[k].0 in matrix && |matrix[diffs[k].0]| == |events|
      invariant forall k, j | 0 <= k < i && 0 <= j < |events| ::
                  matrix[diffs[k].0][j] == EventMean(diffs[k].1, ids, events[j])
    {
      if |diffs[i].1| != |ids| { return None; }
      var means := PerEventMeans(diffs[i].1, ids, events);
      assert forall k | 0 <= k < i :: Names(diffs)[k] != Names(diffs)[i];
      matrix := matrix[diffs[i].0 := means];
    }
    r := Some(Prepared(Sort(Names(diffs), StringLe), events, matrix));
  }

  // ---- the centred bootstrap -------------------------------------------------------------

  predicate IndexInto(index: seq<nat>, n: nat) { |index| == n && forall i | 0 <= i < n :: index[i] < n }

  /** The values picked by the first k entries of the draw, added up. */
  function Picked(values: seq<real>, index: seq<nat>, k: nat): real
    requires k <= |index| == |values| && IndexInto(index, |values|)
  {
    if k == 0 then 0.0 else Picked(values, index, k - 1) + values[index[k - 1]]
  }

  function MeanOf(values: seq<real>): real
    requires values != []
  {
    Average(SumTo(values, |values|), |values|)
  }

  function Centered(values: seq<real>, index: seq<nat>): real
    requires values != [] && IndexInto(index, |values|)
  {
    Average(Picked(values, index, |values|), |values|) - MeanOf(values)
  }

  function Shifted(values: seq<real>, c: real): (r: seq<real>)
    ensures |r| == |values| && forall i | 0 <= i < |r| :: r[i] == values[i] + c
  {
    seq(|values|, i requires 0 <= i < |values| => values[i] + c)
  }

  lemma {:induction false} ShiftSums(values: seq<real>, index: seq<nat>, c: real, k: nat)
    requires k <= |values| && IndexInto(index, |values|)
    ensures SumTo(Shifted(values, c), k) == SumTo(values, k) + c * k as real
    ensures Picked(Shifted(values, c), index, k) == Picked(values, index, k) + c * k as real
  {
    if k > 0 {
      ShiftSums(values, index, c, k - 1);
      ScaleStep(c, k);
    }
  }

  lemma ScaleStep(c: real, k: nat)
    requires k > 0
    ensures c * (k - 1) as real + c == c * k as real
  {
    assert (k - 1) as real + 1.0 == k as real;
  }

  /** Recentring: a constant advantage moves the observed mean and no bootstrap statistic. */
  lemma ShiftKeepsCentered(values: seq<real>, index: seq<nat>, c: real)
    requires values != [] && IndexInto(index, |values|)
    ensures MeanOf(Shifted(values, c)) == MeanOf(values) + c
    ensures Centered(Shifted(values, c), index) == Centered(values, index)
  {
    var n := |values|;
    ShiftSums(values, index, c, n);
    ShiftAverage(SumTo(values, n), c, n);
    ShiftAverage(Picked(values, index, n), c, n);
  }

  lemma ShiftAverage(total: real, c: real, n: nat)
    requires n > 0
    ensures Average(total + c * n as real, n) == Average(total, n) + c
  {
    var r := n as real;
    assert (total + c * r) / r == total / r + c;
  }

  method Observed(candidates: seq<string>, matrix: map<string, seq<real>>) returns (observed: Scores)
    requires forall name | name in candidates :: name in matrix && matrix[name] != []
    ensures forall name | name in candidates :: name in observed && observed[name] == MeanOf(matrix[name])
  {
    observed := map[];
    for i := 0 to |candidates|
      invariant forall k | 0 <= k < i :: candidates[k] in observed
      invariant forall name | name in observed && name in candidates :: observed[name] == MeanOf(matrix[name])
    {
      observed := observed[candidates[i] := MeanOf(matrix[candidates[i]])];
    }
  }

  method Bootstrap(candidates: seq<string>, matrix: map<string, seq<real>>, observed: Scores, draws: seq<seq<nat>>,
                   n: nat) returns (rows: seq<Scores>)
    requires n > 0 && forall d | 0 <= d < |draws| :: IndexInto(draws[d], n)
    requires forall name | name in candidates :: name in matrix && |matrix[name]| == n
    requires forall name | name in candidates :: Of(observed, name) == MeanOf(matrix[name])
    ensures |rows| == |draws|
    ensures forall d, name | 0 <= d < |draws| && name in candidates ::
              Of(rows[d], name) == Centered(matrix[name], draws[d])
  {
    rows := [];
    for d := 0 to |draws|
      invariant |rows| == d
      invariant forall k, name | 0 <= k < d && name in candidates ::
                  Of(rows[k], name) == Centered(matrix[name], draws[k])
    {
      var row: Scores := map[];
      for i := 0 to |candidates|
        invariant forall k | 0 <= k < i :: candidates[k] in row
        invariant forall name | name in row && name in candidates :: row[name] == Centered(matrix[name], draws[d])
      {
        var values := matrix[candidates[i]];
        row := row[candidates[i] := Average(Picked(values, draws[d], n), n) - Of(observed, candidates[i])];
      }
      rows := rows + [row];
    }
  }

  // ---- maxima and counts -----------------------------------------------------------------

  function MaxOver(row: Scores, keys: seq<string>): real
    requires keys != []
  {
    var last := Of(row, keys[|keys| - 1]);
    if |keys| == 1 then last
    else
      var before := MaxOver(row, keys[..|keys| - 1]);
      if before >= last then before else last
  }

  lemma {:induction false} MaxReaches(row: Scores, keys: seq<string>, t: real)
    requires keys != []
    ensures MaxOver(row, keys) >= t <==> exists name | name in keys :: Of(row, name) >= t
  {
    var last := keys[|keys| - 1];
    assert keys == keys[..|keys| - 1] + [last];
    if |keys| > 1 { MaxReaches(row, keys[..|keys| - 1], t); }
  }

  lemma MaxWider(row: Scores, keys: seq<string>, wider: seq<string>)
    requires keys != [] && wider != [] && forall name | name in keys :: name in wider
    ensures MaxOver(row, keys) <= MaxOver(row, wider)
  {
    MaxReaches(row, keys, MaxOver(row, keys));
    MaxReaches(row, wider, MaxOver(row, keys));
  }

  /** The draws among the first k whose maximum over the keys reaches t. */
  function Exceed(rows: seq<Scores>, keys: seq<string>, t: real, k: nat): (n: nat)
    requires keys != [] && k <= |rows|
    ensures n <= k
  {
    if k == 0 then 0 else Exceed(rows, keys, t, k - 1) + if MaxOver(rows[k - 1], keys) >= t then 1 else 0
  }

  lemma {:induction false} ExceedGrows(rows: seq<Scores>, keys: seq<string>, t: real, wider: seq<string>, u: real,
                                       k: nat)
    requires keys != [] && wider != [] && (forall name | name in keys :: name in wider) && u <= t && k <= |rows|
    ensures Exceed(rows, keys, t, k) <= Exceed(rows, wider, u, k)
  {
    if k > 0 {
      ExceedGrows(rows, keys, t, wider, u, k - 1);
      MaxWider(rows[k - 1], keys, wider);
    }
  }

  lemma ExceedSame(rows: seq<Scores>, keys: seq<string>, same: seq<string>, t: real)
    requires keys != [] && same != [] && forall name :: name in keys <==> name in same
    ensures Exceed(rows, keys, t, |rows|) == Exceed(rows, same, t, |rows|)
  {
    ExceedGrows(rows, keys, t, same, t, |rows|);
    ExceedGrows(rows, same, t, keys, t, |rows|);
  }

  function PValue(exceed: nat, draws: nat): real { (1 + exceed) as real / (draws + 1) as real }

  lemma PValueOrder(a: nat, b: nat, draws: nat)
    requires a <= b <= draws
    ensures 0.0 < PValue(a, draws) <= PValue(b, draws) <= 1.0
  {
  }

  method CountExceed(rows: seq<Scores>, keys: seq<string>, t: real) returns (n: nat)
    requires keys != []
    ensures n == Exceed(rows, keys, t, |rows|)
  {
    n := 0;
    for d := 0 to |rows|
      invariant n == Exceed(rows, keys, t, d)
    {
      if MaxOver(rows[d], keys) >= t { n := n + 1; }
    }
  }

  // ---- the two tests ---------------------------------------------------------------------

  /** The p-value of a score against the maximum over every candidate. */
  function SingleStep(rows: seq<Scores>, candidates: seq<string>, score: real): real
    requires candidates != []
  {
    PValue(Exceed(rows, candidates, score, |rows|), |rows|)
  }

  method RealityCheck(candidates: seq<string>, observed: Scores, rows: seq<Scores>) returns (p: real)
    requires candidates != []
    ensures p == SingleStep(rows, candidates, MaxOver(observed, candidates))
    ensures 0.0 < p <= 1.0
  {
    var exceed := CountExceed(rows, candidates, MaxOver(observed, candidates));
    PValueOrder(exceed, exceed, |rows|);
    p := PValue(exceed, |rows|);
  }

  /** Decreasing observed advantage, then name. */
  function Better(observed: Scores): (string, string) -> bool {
    (a, b) => Of(observed, a) > Of(observed, b) || (Of(observed, a) == Of(observed, b) && StringLe(a, b))
  }

  lemma BetterOrders(observed: Scores)
    ensures TotalPreorder(Better(observed)) && Antisymmetric(Better(observed))
  {
    StringOrder();
  }

  function Order(candidates: seq<string>, observed: Scores): (order: seq<string>)
    ensures |order| == |candidates| && forall name :: name in order <==> name in candidates
    ensures forall i, j | 0 <= i <= j < |order| :: Of(observed, order[i]) >= Of(observed, order[j])
  {
    BetterOrders(observed);
    SortKeeps(candidates, Better(observed));
    SortSorts(candidates, Better(observed));
    var order := Sort(candidates, Better(observed));
    assert forall name :: name in order <==> name in candidates by {
      forall name ensures name in order <==> name in candidates { SortMembers(candidates, Better(observed), name); }
    }
    assert forall i, j | 0 <= i < j < |order| :: Better(observed)(order[i], order[j]);
    order
  }

  /** The p-value of step j: candidate j of the order against those not yet dealt with. */
  function StepValue(rows: seq<Scores>, order: seq<string>, observed: Scores, j: nat): real
    requires j < |order|
  {
    PValue(Exceed(rows, order[j..], Of(observed, order[j]), |rows|), |rows|)
  }

  /** The running maximum of the first k step values. */
  function Running(rows: seq<Scores>, order: seq<string>, observed: Scores, k: nat): real
    requires k <= |order|
  {
    if k == 0 then 0.0
    else
      var before, step := Running(rows, order, observed, k - 1), StepValue(rows, order, observed, k - 1);
      if before >= step then before else step
  }

  function Without(s: seq<string>, name: string): seq<string> {
    if s == [] then [] else if s[0] == name then s[1..] else [s[0]] + Without(s[1..], name)
  }

  lemma {:induction false} WithoutMembers(s: seq<string>, name: string)
    requires Distinct(s)
    ensures Distinct(Without(s, name)) && forall x :: x in Without(s, name) <==> x in s && x != name
  {
    if s != [] {
      assert s == [s[0]] + s[1..];
      WithoutMembers(s[1..], name);
      assert forall j | 1 <= j < |s| :: s[j] != s[0];
      assert s[0] !in s[1..];
    }
  }

  lemma OrderDistinct(candidates: seq<string>, observed: Scores)
    requires Distinct(candidates)
    ensures Distinct(Order(candidates, observed))
  {
    SortDistinct(candidates, Better(observed));
  }

  /** What remains are the names from position i of the order on. */
  ghost predicate Remains(remaining: seq<string>, order: seq<string>, i: nat)
    requires i <= |order|
  {
    Distinct(remaining) && forall name :: name in remaining <==> name in order[i..]
  }

  lemma RemainsStep(remaining: seq<string>, order: seq<string>, i: nat)
    requires Distinct(order) && i < |order| && Remains(remaining, order, i)
    ensures remaining != [] && Remains(Without(remaining, order[i]), order, i + 1)
  {
    assert order[i..] == [order[i]] + order[i + 1..];
    assert forall j | i < j < |order| :: order[j] != order[i];
    assert order[i] in remaining;
    WithoutMembers(remaining, order[i]);
  }

  lemma RemainsExceed(rows: seq<Scores>, remaining: seq<string>, order: seq<string>, i: nat, t: real)
    requires i < |order| && Remains(remaining, order, i) && remaining != []
    ensures Exceed(rows, remaining, t, |rows|) == Exceed(rows, order[i..], t, |rows|)
  {
    ExceedSame(rows, remaining, order[i..], t);
  }

  /** The p-values of the first k names of the order are in place. */
  ghost predicate Filled(adjusted: Scores, rows: seq<Scores>, order: seq<string>, observed: Scores, k: nat)
    requires k <= |order|
  {
    && (forall name :: name in adjusted <==> name in order[..k])
    && forall j | 0 <= j < k :: Of(adjusted, order[j]) == Running(rows, order, observed, j + 1)
  }

  lemma FilledStep(adjusted: Scores, rows: seq<Scores>, order: seq<string>, observed: Scores, k: nat)
    requires Distinct(order) && k < |order| && Filled(adjusted, rows, order, observed, k)
    ensures Filled(adjusted[order[k] := Running(rows, order, observed, k + 1)], rows, order, observed, k + 1)
  {
    hide Running;
    assert order[..k + 1] == order[..k] + [order[k]];
    assert forall j | 0 <= j < k :: order[j] != order[k];
  }

  method RomanoWolf(candidates: seq<string>, observed: Scores, rows: seq<Scores>) returns (adjusted: Scores)
    requires Distinct(candidates)
    ensures forall name :: name in adjusted <==> name in candidates
    ensures var order := Order(candidates, observed);
            forall k | 0 <= k < |order| :: Of(adjusted, order[k]) == Running(rows, order, observed, k + 1)
  {
    hide Better, Exceed, PValue, Distinct, Without, MaxOver, Order, Remains, Filled;
    var order := Order(candidates, observed);
    OrderDistinct(candidates, observed);
    var remaining, running := candidates, 0.0;
    adjusted := map[];
    StartsFull(candidates, observed, rows);
    for i := 0 to |order|
      invariant Remains(remaining, order, i)
      invariant running == Running(rows, order, observed, i)
      invariant Filled(adjusted, rows, order, observed, i)
    {
      var name := order[i];
      RemainsStep(remaining, order, i);
      var exceed := CountExceed(rows, remaining, Of(observed, name));
      RemainsExceed(rows, remaining, order, i, Of(observed, name));
      var step := PValue(exceed, |rows|);
      if running < step { running := step; }
      FilledStep(adjusted, rows, order, observed, i);
      adjusted := adjusted[name := running];
      remaining := Without(remaining, name);
    }
    EndsFilled(candidates, observed, rows, adjusted);
  }

  lemma StartsFull(candidates: seq<string>, observed: Scores, rows: seq<Scores>)
    requires Distinct(candidates)
    ensures Remains(candidates, Order(candidates, observed), 0)
    ensures Filled(map[], rows, Order(candidates, observed), observed, 0)
  {
    hide Order;
    var order := Order(candidates, observed);
    assert order[0..] == order;
  }

  lemma EndsFilled(candidates: seq<string>, observed: Scores, rows: seq<Scores>, adjusted: Scores)
    requires Filled(adjusted, rows, Order(candidates, observed), observed, |Order(candidates, observed)|)
    ensures forall name :: name in adjusted <==> name in candidates
    ensures var order := Order(candidates, observed);
            forall k | 0 <= k < |order| :: Of(adjusted, order[k]) == Running(rows, order, observed, k + 1)
  {
    hide Order, Running;
    var order := Order(candidates, observed);
    assert order[..|order|] == order;
  }

  // ---- what the adjusted p-values promise ------------------------------------------------

  /** The running maximum never decreases, and is one of the step values it covers. */
  lemma {:induction false} RunningMonotone(rows: seq<Scores>, order: seq<string>, observed: Scores, j: nat, k: nat)
    requires j <= k <= |order|
    ensures Running(rows, order, observed, j) <= Running(rows, order, observed, k)
  {
    if j < k { RunningMonotone(rows, order, observed, j, k - 1); }
  }

  /** Every earlier step against fewer candidates and a larger score stays below the single step. */
  lemma {:induction false} RunningBound(rows: seq<Scores>, order: seq<string>, observed: Scores, k: nat, low: real)
    requires k <= |order| && order != [] && forall i | 0 <= i < k :: low <= Of(observed, order[i])
    ensures Running(rows, order, observed, k) <= SingleStep(rows, order, low)
  {
    PValueOrder(Exceed(rows, order, low, |rows|), Exceed(rows, order, low, |rows|), |rows|);
    if k > 0 {
      RunningBound(rows, order, observed, k - 1, low);
      var score := Of(observed, order[k - 1]);
      ExceedGrows(rows, order[k - 1..], score, order, low, |rows|);
      PValueOrder(Exceed(rows, order[k - 1..], score, |rows|), Exceed(rows, order, low, |rows|), |rows|);
    }
  }

  lemma FirstIsBest(candidates: seq<string>, observed: Scores)
    requires candidates != []
    ensures Of(observed, Order(candidates, observed)[0]) == MaxOver(observed, candidates)
  {
    var order := Order(candidates, observed);
    MaxReaches(observed, candidates, Of(observed, order[0]));
    assert order[0] in candidates;
    MaxReaches(observed, candidates, MaxOver(observed, candidates));
    var best :| best in candidates && Of(observed, best) >= MaxOver(observed, candidates);
    assert best in order;
  }

  /**
   The stepdown: every adjusted p-value is in (0, 1], they do not decrease down the order, the first is
   the Reality Check's on the same draws, and each lies between the candidate's own p-value and its
   single-step p-value against the maximum over all candidates.
   */
  lemma StepdownLaw(candidates: seq<string>, observed: Scores, rows: seq<Scores>, k: nat)
    requires k < |candidates|
    ensures var order := Order(candidates, observed);
            && 0.0 < Running(rows, order, observed, k + 1) <= 1.0
            && Running(rows, order, observed, k) <= Running(rows, order, observed, k + 1)
            && Running(rows, order, observed, 1) == SingleStep(rows, candidates, MaxOver(observed, candidates))
            && SingleStep(rows, [order[k]], Of(observed, order[k])) <= Running(rows, order, observed, k + 1)
            && Running(rows, order, observed, k + 1) <= SingleStep(rows, candidates, Of(observed, order[k]))
  {
    hide PValue, Exceed, MaxOver;
    var order := Order(candidates, observed);
    var score := Of(observed, order[k]);
    FirstIsBest(candidates, observed);
    ExceedSame(rows, order[0..], candidates, Of(observed, order[0]));
    StepRange(rows, order, observed, 0);
    StepRange(rows, order, observed, k);
    RunningBound(rows, order, observed, k + 1, score);
    ExceedSame(rows, order, candidates, score);
    var all := Exceed(rows, order, score, |rows|);
    PValueOrder(all, all, |rows|);
    var alone := Exceed(rows, [order[k]], score, |rows|);
    ExceedGrows(rows, [order[k]], score, order[k..], score, |rows|);
    PValueOrder(alone, Exceed(rows, order[k..], score, |rows|), |rows|);
  }

  lemma StepRange(rows: seq<Scores>, order: seq<string>, observed: Scores, j: nat)
    requires j < |order|
    ensures 0.0 < StepValue(rows, order, observed, j) <= 1.0
  {
    var n := Exceed(rows, order[j..], Of(observed, order[j]), |rows|);
    PValueOrder(n, n, |rows|);
  }

  /** Equal advantages get equal p-values, so the names that break the tie do not matter. */
  lemma {:induction false} TiesAgree(rows: seq<Scores>, order: seq<string>, observed: Scores, j: nat, k: nat)
    requires j <= k < |order| && forall i | j <= i <= k :: Of(observed, order[i]) == Of(observed, order[j])
    ensures Running(rows, order, observed, j + 1) == Running(rows, order, observed, k + 1)
    decreases k
  {
    if j < k {
      TiesAgree(rows, order, observed, j, k - 1);
      var score := Of(observed, order[j]);
      ExceedGrows(rows, order[k..], score, order[j..], score, |rows|);
      PValueOrder(Exceed(rows, order[k..], score, |rows|), Exceed(rows, order[j..], score, |rows|), |rows|);
      RunningMonotone(rows, order, observed, j + 1, k);
    }
  }

  lemma {:induction false} Uniform(rows: seq<Scores>, order: seq<string>, observed: Scores, more: Scores, k: nat)
    requires k <= |order| && forall i | 0 <= i < |order| :: Of(observed, order[i]) <= Of(more, order[i])
    ensures Running(rows, order, more, k) <= Running(rows, order, observed, k)
  {
    if k > 0 {
      Uniform(rows, order, observed, more, k - 1);
      var low, high := Of(observed, order[k - 1]), Of(more, order[k - 1]);
      ExceedGrows(rows, order[k - 1..], high, order[k - 1..], low, |rows|);
      PValueOrder(Exceed(rows, order[k - 1..], high, |rows|), Exceed(rows, order[k - 1..], low, |rows|), |rows|);
    }
  }

  lemma SameOrder(candidates: seq<string>, observed: Scores, more: Scores, c: real)
    requires forall name | name in candidates :: Of(more, name) == Of(observed, name) + c
    ensures Order(candidates, more) == Order(candidates, observed)
  {
    BetterOrders(observed);
    var a, b := Order(candidates, observed), Order(candidates, more);
    SortKeeps(candidates, Better(observed));
    SortKeeps(candidates, Better(more));
    BetterOrders(more);
    SortSorts(candidates, Better(observed));
    SortSorts(candidates, Better(more));
    forall i, j | 0 <= i < j < |b| ensures Better(observed)(b[i], b[j]) {
      assert b[i] in candidates && b[j] in candidates && Better(more)(b[i], b[j]);
    }
    SortedUnique(a, b, Better(observed));
  }

  /** A common advantage added to every candidate keeps the order and raises no adjusted p-value. */
  lemma CommonAdvantage(candidates: seq<string>, observed: Scores, more: Scores, rows: seq<Scores>, c: real, k: nat)
    requires c >= 0.0 && k <= |candidates|
    requires forall name | name in candidates :: Of(more, name) == Of(observed, name) + c
    ensures Order(candidates, more) == Order(candidates, observed)
    ensures Running(rows, Order(candidates, more), more, k) <= Running(rows, Order(candidates, observed), observed, k)
  {
    SameOrder(candidates, observed, more, c);
    var order := Order(candidates, observed);
    assert forall i | 0 <= i < |order| :: order[i] in candidates;
    Uniform(rows, order, observed, more, k);
  }
}
