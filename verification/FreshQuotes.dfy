/**
 The freshest-quote reduction (app/engine.py, _freshest_valid_payloads): one valid payload per selection,
 in the order in which selections first appear, and why reducing in pieces gives the same list.
 */
module FreshQuotes {
  import opened Options
  import opened Ordering

  /** A payload field: missing, not a finite number, or a finite number. */
  datatype Field = Missing | NotFinite | Number(value: real)

  datatype Key = Key(market: string, outcome: string, source: string)

  /** body stands for everything the reduction does not look at. */
  datatype Payload = Payload(key: Key, probability: Field, ask: Field, bid: Field, askSize: Field, liquidity: Field,
                             observedAt: real, receivedAt: real, body: nat)

  predicate ValidProbability(f: Field) { f.Number? && 0.0 < f.value < 1.0 }

  predicate ValidSize(f: Field) { f.Number? && f.value >= 0.0 }

  predicate Valid(p: Payload) {
    && ValidProbability(p.probability)
    && (p.ask.Missing? || ValidProbability(p.ask))
    && (p.bid.Missing? || (p.bid.Number? && 0.0 <= p.bid.value < 1.0))
    && (p.askSize.Missing? || ValidSize(p.askSize))
    && (p.liquidity.Missing? || ValidSize(p.liquidity))
  }

  /** The provider's time decides, then the time of receipt. */
  predicate Newer(p: Payload, q: Payload) {
    p.observedAt > q.observedAt || (p.observedAt == q.observedAt && p.receivedAt > q.receivedAt)
  }

  // ---- what the reduction keeps ----------------------------------------------------------

  function Offered(p: Payload, k: Key): Option<Payload> { if Valid(p) && p.key == k then Some(p) else None }

  function Merge(x: Option<Payload>, y: Option<Payload>): Option<Payload> {
    if x.None? then y else if y.None? || !Newer(y.value, x.value) then x else y
  }

  /** The payload kept for a selection. */
  function Pick(s: seq<Payload>, k: Key): Option<Payload> {
    if s == [] then None else Merge(Pick(s[..|s| - 1], k), Offered(s[|s| - 1], k))
  }

  /** The selections with a valid payload, in order of first appearance. */
  function Keys(s: seq<Payload>): seq<Key> {
    if s == [] then []
    else
      var before, p := Keys(s[..|s| - 1]), s[|s| - 1];
      if Valid(p) && p.key !in before then before + [p.key] else before
  }

  lemma {:induction false} KeysFacts(s: seq<Payload>, k: Key)
    ensures Distinct(Keys(s)) && (k in Keys(s) <==> Pick(s, k).Some?)
    ensures Pick(s, k).Some? ==> Pick(s, k).value.key == k && Valid(Pick(s, k).value)
  {
    if s != [] { KeysFacts(s[..|s| - 1], k); }
  }

  function Reduce(s: seq<Payload>): (r: seq<Payload>)
    ensures |r| == |Keys(s)|
  {
    seq(|Keys(s)|, i requires 0 <= i < |Keys(s)| => KeysFacts(s, Keys(s)[i]); Pick(s, Keys(s)[i]).value)
  }

  method FreshestValidPayloads(payloads: seq<Payload>) returns (kept: seq<Payload>)
    ensures kept == Reduce(payloads)
  {
    var freshest: map<Key, Payload> := map[];
    var order: seq<Key> := [];
    for i := 0 to |payloads|
      invariant order == Keys(payloads[..i])
      invariant forall k :: k in freshest <==> k in order
      invariant forall k | k in freshest :: Pick(payloads[..i], k) == Some(freshest[k])
    {
      var p := payloads[i];
      assert payloads[..i + 1][..i] == payloads[..i] && payloads[..i + 1][i] == p;
      KeysFacts(payloads[..i], p.key);
      if Valid(p) {
        if p.key !in freshest {
          order := order + [p.key];
          freshest := freshest[p.key := p];
        } else if Newer(p, freshest[p.key]) {
          freshest := freshest[p.key := p];
        }
      }
    }
    assert payloads[..|payloads|] == payloads;
    kept := seq(|order|, i requires 0 <= i < |order| && order[i] in freshest => freshest[order[i]]);
  }

  /** Position i holds the earliest valid payload of its selection that no other one is newer than. */
  predicate EarliestBest(s: seq<Payload>, i: nat, k: Key)
    requires i < |s|
  {
    && Valid(s[i]) && s[i].key == k
    && (forall j | 0 <= j < |s| && Valid(s[j]) && s[j].key == k :: !Newer(s[j], s[i]))
    && (forall j | 0 <= j < i && Valid(s[j]) && s[j].key == k :: Newer(s[i], s[j]))
  }

  lemma BestStays(s: seq<Payload>, i: nat, k: Key)
    requires s != [] && i < |s| - 1 && EarliestBest(s[..|s| - 1], i, k)
    requires !(Valid(s[|s| - 1]) && s[|s| - 1].key == k && Newer(s[|s| - 1], s[i]))
    ensures EarliestBest(s, i, k)
  {
    hide Valid, Newer;
    assert forall j | 0 <= j < |s| - 1 :: s[..|s| - 1][j] == s[j];
  }

  lemma BestReplaced(s: seq<Payload>, i: nat, k: Key)
    requires s != [] && i < |s| - 1 && EarliestBest(s[..|s| - 1], i, k)
    requires Valid(s[|s| - 1]) && s[|s| - 1].key == k && Newer(s[|s| - 1], s[i])
    ensures EarliestBest(s, |s| - 1, k)
  {
    hide Valid;
    var n := |s| - 1;
    forall j | 0 <= j < n && Valid(s[j]) && s[j].key == k ensures Newer(s[n], s[j]) && !Newer(s[j], s[n]) {
      assert !Newer(s[..n][j], s[..n][i]);
    }
  }

  lemma {:induction false} PickMeaning(s: seq<Payload>, k: Key)
    ensures Pick(s, k).None? <==> forall j | 0 <= j < |s| :: !(Valid(s[j]) && s[j].key == k)
    ensures Pick(s, k).Some? ==> exists i | 0 <= i < |s| :: EarliestBest(s, i, k) && Pick(s, k).value == s[i]
  {
    hide Valid, Newer, EarliestBest;
    if s != [] {
      var n := |s| - 1;
      var before := s[..n];
      PickMeaning(before, k);
      assert forall j | 0 <= j < n :: before[j] == s[j];
      if Pick(before, k).Some? {
        var i :| 0 <= i < n && EarliestBest(before, i, k) && Pick(before, k).value == before[i];
        if Valid(s[n]) && s[n].key == k && Newer(s[n], s[i]) { BestReplaced(s, i, k); } else { BestStays(s, i, k); }
      } else if Valid(s[n]) && s[n].key == k {
        assert EarliestBest(s, n, k) by { FirstBest(s, k); }
      }
    }
  }

  lemma FirstBest(s: seq<Payload>, k: Key)
    requires s != [] && Valid(s[|s| - 1]) && s[|s| - 1].key == k
    requires forall j | 0 <= j < |s| - 1 :: !(Valid(s[j]) && s[j].key == k)
    ensures EarliestBest(s, |s| - 1, k)
  {
  }

  /** Every selection with a valid payload is kept once, in the order of first appearance, at its best. */
  lemma ReduceKeepsBest(s: seq<Payload>, j: nat)
    requires j < |Reduce(s)|
    ensures Distinct(Keys(s)) && Reduce(s)[j].key == Keys(s)[j]
    ensures exists i | 0 <= i < |s| :: EarliestBest(s, i, Keys(s)[j]) && Reduce(s)[j] == s[i]
  {
    KeysFacts(s, Keys(s)[j]);
    PickMeaning(s, Keys(s)[j]);
  }

  // ---- the same in the payloads' own numbers ---------------------------------------------

  ghost predicate Between(f: Field, low: real, high: real) { exists x :: f == Number(x) && low < x && x < high }

  ghost predicate NotNegative(f: Field) { f == Missing || exists x :: f == Number(x) && !(x < 0.0) }

  /** A probability and an ask strictly inside (0, 1), a bid in [0, 1), sizes that are not negative. */
  ghost predicate Acceptable(p: Payload) {
    && Between(p.probability, 0.0, 1.0)
    && (p.ask == Missing || Between(p.ask, 0.0, 1.0))
    && (p.bid == Missing || p.bid == Number(0.0) || Between(p.bid, 0.0, 1.0))
    && NotNegative(p.askSize) && NotNegative(p.liquidity)
  }

  /** p is at least as late as q: by the provider's clock, and by the receipt when that is equal. */
  ghost predicate AtLeastAsLate(p: Payload, q: Payload) {
    q.observedAt <= p.observedAt && (q.observedAt == p.observedAt ==> q.receivedAt <= p.receivedAt)
  }

  /** Position i is acceptable, as late as every acceptable payload of its selection, and the first such. */
  ghost predicate FirstOfLatest(s: seq<Payload>, i: nat)
    requires i < |s|
  {
    && Acceptable(s[i])
    && (forall j | 0 <= j < |s| && s[j].key == s[i].key && Acceptable(s[j]) :: AtLeastAsLate(s[i], s[j]))
    && (forall j | 0 <= j < i && s[j].key == s[i].key && Acceptable(s[j]) :: !AtLeastAsLate(s[j], s[i]))
  }

  lemma ValidExactly(p: Payload)
    ensures Valid(p) <==> Acceptable(p)
  {
  }

  /**
   The reduction has a payload of a selection exactly when an acceptable one was given, and only one: the
   first of the latest.
   */
  lemma ReduceInNumbers(s: seq<Payload>, k: Key)
    ensures (exists r :: r in Reduce(s) && r.key == k)
       <==> (exists i :: 0 <= i < |s| && s[i].key == k && Acceptable(s[i]))
    ensures forall a, b | 0 <= a < b < |Reduce(s)| :: Reduce(s)[a].key != Reduce(s)[b].key
    ensures forall r | r in Reduce(s) && r.key == k :: exists i | 0 <= i < |s| :: s[i] == r && FirstOfLatest(s, i)
  {
    hide Reduce, Acceptable, Keys, Pick, Valid;
    forall p: Payload ensures Valid(p) <==> Acceptable(p) { ValidExactly(p); }
    PickMeaning(s, k);
    ReduceAt(s, k);
    forall r | r in Reduce(s) && r.key == k
      ensures exists i | 0 <= i < |s| :: s[i] == r && FirstOfLatest(s, i)
    {
      var i: nat :| i < |s| && EarliestBest(s, i, k) && r == s[i];
      forall j | 0 <= j < |s| && s[j].key == k && Acceptable(s[j]) ensures AtLeastAsLate(s[i], s[j]) {
        assert !Newer(s[j], s[i]);
      }
      forall j | 0 <= j < i && s[j].key == k && Acceptable(s[j]) ensures !AtLeastAsLate(s[j], s[i]) {
        assert Newer(s[i], s[j]);
      }
    }
  }

  lemma ReduceAt(s: seq<Payload>, k: Key)
    ensures (exists r :: r in Reduce(s) && r.key == k) <==> Pick(s, k).Some?
    ensures forall r | r in Reduce(s) && r.key == k :: Pick(s, k) == Some(r)
    ensures forall a, b | 0 <= a < b < |Reduce(s)| :: Reduce(s)[a].key != Reduce(s)[b].key
  {
    var r := Reduce(s);
    forall j | 0 <= j < |r| ensures r[j].key == Keys(s)[j] && Pick(s, Keys(s)[j]) == Some(r[j]) {
      KeysFacts(s, Keys(s)[j]);
    }
    KeysFacts(s, k);
    if k in Keys(s) {
      var j :| 0 <= j < |Keys(s)| && Keys(s)[j] == k;
      assert r[j] in r && r[j].key == k;
    }
  }

  // ---- reducing in pieces ----------------------------------------------------------------

  lemma MergeAssociates(x: Option<Payload>, y: Option<Payload>, z: Option<Payload>)
    ensures Merge(Merge(x, y), z) == Merge(x, Merge(y, z))
  {
  }

  lemma {:induction false} PickConcat(a: seq<Payload>, b: seq<Payload>, k: Key)
    ensures Pick(a + b, k) == Merge(Pick(a, k), Pick(b, k))
  {
    hide Valid, Newer;
    if b == [] {
      assert a + b == a;
    } else {
      var n := |b| - 1;
      assert (a + b)[..|a + b| - 1] == a + b[..n] && (a + b)[|a + b| - 1] == b[n];
      PickConcat(a, b[..n], k);
      MergeAssociates(Pick(a, k), Pick(b[..n], k), Offered(b[n], k));
    }
  }

  /** The keys not seen before, in order. */
  function Unseen(ks: seq<Key>, seen: seq<Key>): (r: seq<Key>)
    ensures forall k :: k in r <==> k in ks && k !in seen
  {
    if ks == [] then []
    else
      assert ks == ks[..|ks| - 1] + [ks[|ks| - 1]];
      Unseen(ks[..|ks| - 1], seen) + if ks[|ks| - 1] in seen then [] else [ks[|ks| - 1]]
  }

  lemma UnseenEmpty(seen: seq<Key>)
    ensures Unseen([], seen) == []
  {
  }

  lemma UnseenStep(ks: seq<Key>, k: Key, seen: seq<Key>)
    ensures Unseen(ks + [k], seen) == Unseen(ks, seen) + if k in seen then [] else [k]
  {
    assert (ks + [k])[..|ks|] == ks;
  }

  lemma {:induction false} KeysConcat(a: seq<Payload>, b: seq<Payload>)
    ensures Keys(a + b) == Keys(a) + Unseen(Keys(b), Keys(a))
  {
    hide Valid, Unseen;
    if b == [] {
      assert a + b == a;
      UnseenEmpty(Keys(a));
    } else {
      var n := |b| - 1;
      assert (a + b)[..|a + b| - 1] == a + b[..n] && (a + b)[|a + b| - 1] == b[n];
      KeysConcat(a, b[..n]);
      UnseenStep(Keys(b[..n]), b[n].key, Keys(a));
    }
  }

  /** A list with one valid payload per selection is picked from entry by entry. */
  lemma {:induction false} CleanPicks(r: seq<Payload>, ks: seq<Key>)
    requires |r| == |ks| && Distinct(ks) && forall i | 0 <= i < |r| :: Valid(r[i]) && r[i].key == ks[i]
    ensures Keys(r) == ks
    ensures forall i | 0 <= i < |r| :: Pick(r, ks[i]) == Some(r[i])
  {
    hide Valid;
    if r != [] {
      var n := |r| - 1;
      CleanPicks(r[..n], ks[..n]);
      assert ks == ks[..n] + [ks[n]];
      assert ks[n] !in ks[..n];
      KeysFacts(r[..n], ks[n]);
      forall i | 0 <= i < n ensures Pick(r, ks[i]) == Some(r[i]) {
        assert Pick(r[..n], ks[..n][i]) == Some(r[..n][i]);
      }
    }
  }

  lemma ReduceKeepsPicks(s: seq<Payload>, k: Key)
    ensures Keys(Reduce(s)) == Keys(s) && Pick(Reduce(s), k) == Pick(s, k)
  {
    hide Valid;
    KeysFacts(s, k);
    forall i | 0 <= i < |Reduce(s)| ensures Valid(Reduce(s)[i]) && Reduce(s)[i].key == Keys(s)[i] {
      KeysFacts(s, Keys(s)[i]);
    }
    CleanPicks(Reduce(s), Keys(s));
    KeysFacts(Reduce(s), k);
  }

  lemma SamePicks(s: seq<Payload>, t: seq<Payload>)
    requires Keys(s) == Keys(t) && forall k :: Pick(s, k) == Pick(t, k)
    ensures Reduce(s) == Reduce(t)
  {
  }

  /** Reducing two parts first, and then their concatenation, gives the reduction of the whole, in order. */
  lemma ReduceInPieces(a: seq<Payload>, b: seq<Payload>)
    ensures Reduce(Reduce(a) + Reduce(b)) == Reduce(a + b)
    ensures Reduce(Reduce(a) + b) == Reduce(a + b)
  {
    hide Reduce, Pick, Keys;
    forall k
      ensures Pick(Reduce(a) + Reduce(b), k) == Pick(a + b, k) && Pick(Reduce(a) + b, k) == Pick(a + b, k)
      ensures Keys(Reduce(a)) == Keys(a) && Keys(Reduce(b)) == Keys(b)
    {
      ReduceKeepsPicks(a, k);
      ReduceKeepsPicks(b, k);
      PickConcat(a, b, k);
      PickConcat(Reduce(a), b, k);
      PickConcat(Reduce(a), Reduce(b), k);
    }
    assert Keys(Reduce(a)) == Keys(a) && Keys(Reduce(b)) == Keys(b) by {
      var k := Key("", "", "");
      ReduceKeepsPicks(a, k);
      ReduceKeepsPicks(b, k);
    }
    KeysConcat(a, b);
    KeysConcat(Reduce(a), b);
    KeysConcat(Reduce(a), Reduce(b));
    SamePicks(Reduce(a) + Reduce(b), a + b);
    SamePicks(Reduce(a) + b, a + b);
  }

  lemma ReduceIdempotent(s: seq<Payload>)
    ensures Reduce(Reduce(s)) == Reduce(s)
  {
    hide Reduce;
    ReduceInPieces(s, []);
    assert Reduce(s) + [] == Reduce(s) && s + [] == s;
  }
}
