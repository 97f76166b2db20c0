/**
 Greedy one-to-one record linkage (app/identity.py, resolve_event_mappings).

 The set of links is characterised without mentioning the order of the loop: an edge is linked
 exactly when it is takeable against the strictly heavier links. Everything else follows.
 */
module Linkage {
  import opened RealSums

  /** A link-eligible pair: target index, candidate index and evidence weight. */
  datatype Edge = Edge(weight: real, target: nat, candidate: nat)

  predicate Touches(a: Edge, b: Edge) { a.target == b.target || a.candidate == b.candidate }

  predicate SamePair(a: Edge, b: Edge) { a.target == b.target && a.candidate == b.candidate }

  /** Neither endpoint is taken by a link. */
  predicate Free(e: Edge, links: set<Edge>) { forall l | l in links :: !Touches(e, l) }

  /** f still competes with e for an endpoint and is not a full margin lighter. */
  predicate Rival(e: Edge, f: Edge, links: set<Edge>, margin: real) {
    Touches(e, f) && !SamePair(e, f) && Free(f, links) && e.weight - f.weight < margin
  }

  predicate Takeable(e: Edge, edges: set<Edge>, links: set<Edge>, margin: real) {
    Free(e, links) && forall f | f in edges :: !Rival(e, f, links, margin)
  }

  /** The links after processing the edges in the given order. */
  function Greedy(order: seq<Edge>, edges: set<Edge>, margin: real): set<Edge> {
    if order == [] then {}
    else
      var links, e := Greedy(order[..|order| - 1], edges, margin), order[|order| - 1];
      if Takeable(e, edges, links, margin) then links + {e} else links
  }

  /** Every edge once, heaviest first; ties in any order. */
  ghost predicate Arranges(order: seq<Edge>, edges: set<Edge>) {
    && (forall e :: e in order <==> e in edges)
    && (forall i, j | 0 <= i < j < |order| :: order[i] != order[j] && order[i].weight >= order[j].weight)
  }

  /** One weight per pair, as in a dictionary keyed by the pair. */
  ghost predicate OnePerPair(edges: set<Edge>) {
    forall e, f | e in edges && f in edges && SamePair(e, f) :: e == f
  }

  function Heavier(links: set<Edge>, weight: real): set<Edge> {
    set l | l in links && l.weight > weight
  }

  /** The order-free description of the outcome. */
  ghost predicate Settled(links: set<Edge>, edges: set<Edge>, margin: real) {
    && links <= edges
    && forall e | e in edges :: e in links <==> Takeable(e, edges, Heavier(links, e.weight), margin)
  }

  // ---- the loop settles the links --------------------------------------------------------

  /** Two takeable edges of one weight never share an endpoint. */
  lemma TiesApart(l: Edge, e: Edge, edges: set<Edge>, heavy: set<Edge>, margin: real)
    requires margin > 0.0 && l.weight == e.weight && e in edges && !SamePair(l, e)
    requires Takeable(l, edges, heavy, margin) && Free(e, heavy)
    ensures !Touches(l, e)
  {
    assert !Rival(l, e, heavy, margin);
  }

  /** An equal-weight link neither blocks nor unblocks another edge of its weight. */
  lemma TiesIrrelevant(e: Edge, edges: set<Edge>, links: set<Edge>, margin: real)
    requires margin > 0.0 && e in edges && e !in links && links <= edges && OnePerPair(edges)
    requires forall l | l in links :: l.weight >= e.weight
    requires forall l | l in links && l.weight == e.weight ::
               Takeable(l, edges, Heavier(links, e.weight), margin)
    ensures Takeable(e, edges, links, margin) <==> Takeable(e, edges, Heavier(links, e.weight), margin)
  {
    var heavy := Heavier(links, e.weight);
    if Takeable(e, edges, heavy, margin) {
      forall l | l in links ensures !Touches(e, l) {
        if l !in heavy { TiesApart(l, e, edges, heavy, margin); }
      }
      forall f | f in edges ensures !Rival(e, f, links, margin) {
        assert !Rival(e, f, heavy, margin);
      }
    }
    if Takeable(e, edges, links, margin) {
      forall f | f in edges ensures !Rival(e, f, heavy, margin) { }
    }
  }

  lemma {:induction false} GreedyPrefix(order: seq<Edge>, edges: set<Edge>, margin: real)
    requires margin > 0.0 && OnePerPair(edges)
    requires forall e | e in order :: e in edges
    requires forall i, j | 0 <= i < j < |order| :: order[i] != order[j] && order[i].weight >= order[j].weight
    ensures var links := Greedy(order, edges, margin);
      && (forall l | l in links :: l in order)
      && (forall e | e in order :: e in links <==> Takeable(e, edges, Heavier(links, e.weight), margin))
  {
    hide Takeable, Heavier;
    if order != [] {
      var n, e := |order| - 1, order[|order| - 1];
      var before, links := Greedy(order[..n], edges, margin), Greedy(order, edges, margin);
      GreedyPrefix(order[..n], edges, margin);
      forall f | f in order ensures Heavier(links, f.weight) == Heavier(before, f.weight) {
        HeavierAgree(links, before, f.weight);
      }
      forall l | l in before ensures l.weight >= e.weight && l in edges && l != e {
        assert l in order[..n];
      }
      TiesIrrelevant(e, edges, before, margin);
      assert order == order[..n] + [e];
    }
  }

  lemma GreedySettles(order: seq<Edge>, edges: set<Edge>, margin: real)
    requires margin > 0.0 && OnePerPair(edges) && Arranges(order, edges)
    ensures Settled(Greedy(order, edges, margin), edges, margin)
  {
    GreedyPrefix(order, edges, margin);
  }

  // ---- the description determines the links ----------------------------------------------

  lemma {:induction false} HeaviestOf(s: set<Edge>) returns (top: Edge)
    requires s != {}
    ensures top in s && forall e | e in s :: e.weight <= top.weight
    decreases |s|
  {
    top :| top in s;
    var rest := s - {top};
    if rest != {} {
      var other := HeaviestOf(rest);
      if other.weight > top.weight { top := other; }
    }
  }

  lemma HeavierAgree(a: set<Edge>, b: set<Edge>, weight: real)
    requires forall l | l in (a - b) + (b - a) :: l.weight <= weight
    ensures Heavier(a, weight) == Heavier(b, weight)
  {
    forall l ensures l in Heavier(a, weight) <==> l in Heavier(b, weight) {
      if l in (a - b) + (b - a) { assert l.weight <= weight; }
    }
  }

  lemma SettledUnique(a: set<Edge>, b: set<Edge>, edges: set<Edge>, margin: real)
    requires Settled(a, edges, margin) && Settled(b, edges, margin)
    ensures a == b
  {
    hide Takeable;
    if a != b {
      var top := HeaviestOf((a - b) + (b - a));
      HeavierAgree(a, b, top.weight);
      assert false;
    }
  }

  // ---- relabelling targets and candidates ------------------------------------------------

  ghost predicate Injective(f: nat -> nat) { forall a, b :: f(a) == f(b) ==> a == b }

  function Relabel(e: Edge, s: nat -> nat, t: nat -> nat): Edge {
    Edge(e.weight, s(e.target), t(e.candidate))
  }

  function RelabelAll(edges: set<Edge>, s: nat -> nat, t: nat -> nat): set<Edge> {
    set e | e in edges :: Relabel(e, s, t)
  }

  lemma RelabelFree(e: Edge, links: set<Edge>, s: nat -> nat, t: nat -> nat)
    requires Injective(s) && Injective(t)
    ensures Free(Relabel(e, s, t), RelabelAll(links, s, t)) <==> Free(e, links)
  {
    if Free(Relabel(e, s, t), RelabelAll(links, s, t)) {
      forall l | l in links ensures !Touches(e, l) {
        assert Relabel(l, s, t) in RelabelAll(links, s, t);
      }
    }
  }

  lemma RelabelRival(e: Edge, f: Edge, links: set<Edge>, margin: real, s: nat -> nat, t: nat -> nat)
    requires Injective(s) && Injective(t)
    ensures Rival(Relabel(e, s, t), Relabel(f, s, t), RelabelAll(links, s, t), margin)
       <==> Rival(e, f, links, margin)
  {
    RelabelFree(f, links, s, t);
  }

  lemma RelabelTakeable(e: Edge, edges: set<Edge>, links: set<Edge>, margin: real, s: nat -> nat, t: nat -> nat)
    requires Injective(s) && Injective(t)
    ensures Takeable(Relabel(e, s, t), RelabelAll(edges, s, t), RelabelAll(links, s, t), margin)
       <==> Takeable(e, edges, links, margin)
  {
    var all, taken := RelabelAll(edges, s, t), RelabelAll(links, s, t);
    RelabelFree(e, links, s, t);
    forall f | f in edges
      ensures Rival(Relabel(e, s, t), Relabel(f, s, t), taken, margin) <==> Rival(e, f, links, margin)
      ensures Relabel(f, s, t) in all
    {
      RelabelRival(e, f, links, margin, s, t);
    }
  }

  lemma RelabelSettled(links: set<Edge>, edges: set<Edge>, margin: real, s: nat -> nat, t: nat -> nat)
    requires Injective(s) && Injective(t) && Settled(links, edges, margin)
    ensures Settled(RelabelAll(links, s, t), RelabelAll(edges, s, t), margin)
  {
    hide Takeable;
    var all, taken := RelabelAll(edges, s, t), RelabelAll(links, s, t);
    forall x | x in all
      ensures x in taken <==> Takeable(x, all, Heavier(taken, x.weight), margin)
    {
      var e :| e in edges && x == Relabel(e, s, t);
      assert Heavier(taken, e.weight) == RelabelAll(Heavier(links, e.weight), s, t);
      RelabelTakeable(e, edges, Heavier(links, e.weight), margin, s, t);
    }
  }

  /**
   Main result: the links depend on the evidence alone. Renumbering targets and candidates and
   breaking equal weights in any order links the same pairs.
   */
  lemma OrderFree(order: seq<Edge>, other: seq<Edge>, edges: set<Edge>, margin: real, s: nat -> nat, t: nat -> nat)
    requires margin > 0.0 && OnePerPair(edges) && Injective(s) && Injective(t)
    requires Arranges(order, edges) && Arranges(other, RelabelAll(edges, s, t))
    ensures Greedy(other, RelabelAll(edges, s, t), margin)
         == RelabelAll(Greedy(order, edges, margin), s, t)
  {
    var all := RelabelAll(edges, s, t);
    assert OnePerPair(all);
    GreedySettles(order, edges, margin);
    GreedySettles(other, all, margin);
    RelabelSettled(Greedy(order, edges, margin), edges, margin, s, t);
    SettledUnique(Greedy(other, all, margin), RelabelAll(Greedy(order, edges, margin), s, t), all, margin);
  }

  /** No two arrangements of the same edges are linked differently. */
  ghost predicate TieProof(margin: real) {
    forall edges: set<Edge>, a: seq<Edge>, b: seq<Edge> |
      OnePerPair(edges) && Arranges(a, edges) && Arranges(b, edges) ::
      Greedy(a, edges, margin) == Greedy(b, edges, margin)
  }

  /** A positive margin is exactly what makes tie-breaking irrelevant. */
  lemma TieProofExactly(margin: real)
    ensures TieProof(margin) <==> margin > 0.0
  {
    if margin > 0.0 {
      forall edges: set<Edge>, a: seq<Edge>, b: seq<Edge> |
        OnePerPair(edges) && Arranges(a, edges) && Arranges(b, edges)
        ensures Greedy(a, edges, margin) == Greedy(b, edges, margin)
      {
        GreedySettles(a, edges, margin);
        GreedySettles(b, edges, margin);
        SettledUnique(Greedy(a, edges, margin), Greedy(b, edges, margin), edges, margin);
      }
    } else {
      var p, q := Edge(1.0, 0, 0), Edge(1.0, 0, 1);
      var edges := {p, q};
      assert Arranges([p, q], edges) && Arranges([q, p], edges);
      FirstWins(p, q, margin);
      FirstWins(q, p, margin);
      assert {q, p} == edges;
    }
  }

  lemma FirstWins(p: Edge, q: Edge, margin: real)
    requires margin <= 0.0 && p != q && Touches(p, q) && p.weight == q.weight
    ensures Greedy([p, q], {p, q}, margin) == {p}
  {
    assert [p, q][..1] == [p] && [p][..0] == [];
    assert Greedy([], {p, q}, margin) == {};
    assert Takeable(p, {p, q}, {}, margin);
    assert Greedy([p], {p, q}, margin) == {p};
    assert !Free(q, {p});
  }

  // ---- one-to-one, and stable with margin ------------------------------------------------

  ghost predicate Matching(links: set<Edge>) {
    forall a, b | a in links && b in links && a != b :: !Touches(a, b)
  }

  lemma SettledMatches(links: set<Edge>, edges: set<Edge>, margin: real)
    requires margin > 0.0 && OnePerPair(edges) && Settled(links, edges, margin)
    ensures Matching(links)
  {
    forall a, b | a in links && b in links && a != b ensures !Touches(a, b) {
      var low := if a.weight < b.weight then a else b;
      var high := if a.weight < b.weight then b else a;
      assert Takeable(low, edges, Heavier(links, low.weight), margin);
      if high.weight == low.weight {
        TiesApart(high, low, edges, Heavier(links, low.weight), margin);
      } else {
        assert high in Heavier(links, low.weight);
      }
    }
  }

  /** An edge left out was beaten by a full margin by the first link at either of its endpoints. */
  lemma StableWithMargin(links: set<Edge>, edges: set<Edge>, margin: real, e: Edge, l: Edge)
    requires OnePerPair(edges) && Settled(links, edges, margin)
    requires e in edges && e !in links && l in links && Touches(e, l)
    requires forall k | k in links && Touches(e, k) :: k.weight <= l.weight
    ensures l.weight >= e.weight + margin
  {
    var heavy := Heavier(links, l.weight);
    assert Free(e, heavy);
    assert !Rival(l, e, heavy, margin);
  }

  // ---- weights ---------------------------------------------------------------------------

  ghost function Weight(s: set<Edge>): real {
    if s == {} then 0.0
    else
      var e :| e in s;
      e.weight + Weight(s - {e})
  }

  lemma {:induction false} WeightWithout(s: set<Edge>, e: Edge)
    requires e in s
    ensures Weight(s) == e.weight + Weight(s - {e})
    decreases |s|
  {
    var d :| d in s && Weight(s) == d.weight + Weight(s - {d});
    if d != e {
      WeightWithout(s - {d}, e);
      WeightWithout(s - {e}, d);
      assert s - {d} - {e} == s - {e} - {d};
    }
  }

  /** The margin owed on top of the weight of an edge that was left out. */
  function Owed(e: Edge, links: set<Edge>, margin: real): real {
    e.weight + (if e in links then 0.0 else margin)
  }

  ghost function TotalOwed(s: set<Edge>, links: set<Edge>, margin: real): real {
    if s == {} then 0.0
    else
      var e :| e in s;
      Owed(e, links, margin) + TotalOwed(s - {e}, links, margin)
  }

  lemma {:induction false} OwedAtLeastWeight(s: set<Edge>, links: set<Edge>, margin: real)
    requires margin >= 0.0
    ensures TotalOwed(s, links, margin) >= Weight(s)
    decreases |s|
  {
    if s != {} {
      var e :| e in s;
      OwedAtLeastWeight(s - {e}, links, margin);
      OwedWithout(s, e, links, margin);
      WeightWithout(s, e);
    }
  }

  lemma {:induction false} OwedUnion(a: set<Edge>, b: set<Edge>, links: set<Edge>, margin: real)
    requires a !! b
    ensures TotalOwed(a + b, links, margin) == TotalOwed(a, links, margin) + TotalOwed(b, links, margin)
    decreases |a| + |b|
  {
    var s := a + b;
    if s != {} {
      var e :| e in s && TotalOwed(s, links, margin) == Owed(e, links, margin) + TotalOwed(s - {e}, links, margin);
      if e in a {
        OwedWithout(a, e, links, margin);
        OwedUnion(a - {e}, b, links, margin);
        assert s - {e} == (a - {e}) + b;
      } else {
        OwedWithout(b, e, links, margin);
        OwedUnion(a, b - {e}, links, margin);
        assert s - {e} == a + (b - {e});
      }
    } else {
      assert a == {} && b == {};
    }
  }

  lemma {:induction false} OwedWithout(s: set<Edge>, e: Edge, links: set<Edge>, margin: real)
    requires e in s
    ensures TotalOwed(s, links, margin) == Owed(e, links, margin) + TotalOwed(s - {e}, links, margin)
    decreases |s|
  {
    var d :| d in s && TotalOwed(s, links, margin) == Owed(d, links, margin) + TotalOwed(s - {d}, links, margin);
    if d != e {
      OwedWithout(s - {d}, e, links, margin);
      OwedWithout(s - {e}, d, links, margin);
      assert s - {d} - {e} == s - {e} - {d};
    }
  }

  ghost predicate ChargesInto(s: set<Edge>, links: set<Edge>, margin: real, f: map<Edge, Edge>, onto: set<Edge>) {
    && (forall e | e in s :: e in f && f[e] in onto && Owed(e, links, margin) <= f[e].weight)
    && (forall a, b | a in s && b in s && a != b :: a in f && b in f && f[a] != f[b])
  }

  /** The edges of positive weight. */
  ghost function Gains(s: set<Edge>): set<Edge> { set l | l in s && l.weight > 0.0 }

  lemma GainsWithout(s: set<Edge>, e: Edge)
    requires e in s
    ensures Gains(s - {e}) == Gains(s) - {e}
    ensures Weight(Gains(s)) == Weight(Gains(s - {e})) + Max(e.weight, 0.0)
  {
    if e.weight > 0.0 {
      WeightWithout(Gains(s), e);
    } else {
      assert Gains(s) - {e} == Gains(s);
    }
  }

  /** Injecting edges into links at least as heavy bounds their total by the positive links. */
  lemma {:induction false} ChargedTotal(s: set<Edge>, links: set<Edge>, margin: real, f: map<Edge, Edge>,
                                        onto: set<Edge>)
    requires ChargesInto(s, links, margin, f, onto)
    ensures TotalOwed(s, links, margin) <= Weight(Gains(onto))
    decreases |s|
  {
    if s == {} {
      GainsPositive(onto);
    } else {
      var e :| e in s && TotalOwed(s, links, margin) == Owed(e, links, margin) + TotalOwed(s - {e}, links, margin);
      GainsWithout(onto, f[e]);
      ChargedTotal(s - {e}, links, margin, f, onto - {f[e]});
    }
  }

  lemma {:induction false} GainsPositive(s: set<Edge>)
    ensures Weight(Gains(s)) >= 0.0
    decreases |s|
  {
    if s == {} {
      assert Gains(s) == {};
    } else {
      var e :| e in s;
      GainsWithout(s, e);
      GainsPositive(s - {e});
    }
  }

  lemma GainsAll(s: set<Edge>)
    requires forall e | e in s :: e.weight >= 0.0
    ensures Weight(Gains(s)) == Weight(s)
    decreases |s|
  {
    if s == {} {
      assert Gains(s) == {};
    } else {
      var e :| e in s;
      GainsWithout(s, e);
      WeightWithout(s, e);
      GainsAll(s - {e});
    }
  }

  // ---- a matching that only competes for linked endpoints weighs at most twice -----------

  /** m is paid for by a link that shares the given endpoint. */
  predicate PaidBy(m: Edge, l: Edge, links: set<Edge>, margin: real, byTarget: bool) {
    && l in links
    && (if byTarget then l.target == m.target else l.candidate == m.candidate)
    && Owed(m, links, margin) <= l.weight
  }

  lemma SomeLinkPays(links: set<Edge>, edges: set<Edge>, margin: real, m: Edge)
    requires OnePerPair(edges) && Settled(links, edges, margin)
    requires m in edges && exists l :: l in links && Touches(m, l)
    ensures exists l :: PaidBy(m, l, links, margin, true) || PaidBy(m, l, links, margin, false)
  {
    hide Settled, OnePerPair;
    if m in links {
      assert PaidBy(m, m, links, margin, true);
    } else {
      var touching := set l | l in links && Touches(m, l);
      var k :| k in links && Touches(m, k);
      assert k in touching;
      var l := HeaviestOf(touching);
      StableWithMargin(links, edges, margin, m, l);
      assert PaidBy(m, l, links, margin, l.target == m.target);
    }
  }

  lemma PaidTotal(s: set<Edge>, links: set<Edge>, margin: real, byTarget: bool)
    requires Matching(s) && forall m | m in s :: exists l :: PaidBy(m, l, links, margin, byTarget)
    ensures TotalOwed(s, links, margin) <= Weight(Gains(links))
  {
    var f := Payers(s, links, margin, byTarget);
    assert ChargesInto(s, links, margin, f, links);
    ChargedTotal(s, links, margin, f, links);
  }

  ghost function Payers(s: set<Edge>, links: set<Edge>, margin: real, byTarget: bool): (f: map<Edge, Edge>)
    requires forall m | m in s :: exists l :: PaidBy(m, l, links, margin, byTarget)
    ensures f.Keys == s && forall m | m in s :: PaidBy(m, f[m], links, margin, byTarget)
  {
    map m | m in s :: var l :| PaidBy(m, l, links, margin, byTarget); l
  }

  /**
   Half-optimal: any one-to-one set of eligible edges that touch a linked endpoint weighs at most
   twice the positive links, even with the margin added to every edge the links left out.
   */
  lemma HalfOptimal(links: set<Edge>, edges: set<Edge>, margin: real, m: set<Edge>)
    requires margin > 0.0 && OnePerPair(edges) && Settled(links, edges, margin)
    requires m <= edges && Matching(m)
    requires forall e | e in m :: exists l :: l in links && Touches(e, l)
    ensures TotalOwed(m, links, margin) <= Weight(Gains(links)) + Weight(Gains(links))
    ensures Weight(m) <= Weight(Gains(links)) + Weight(Gains(links))
    ensures (forall l | l in links :: l.weight >= 0.0) ==> Weight(m) <= Weight(links) + Weight(links)
  {
    var a := set e | e in m && exists l :: PaidBy(e, l, links, margin, true);
    var b := m - a;
    forall e | e in b ensures exists l :: PaidBy(e, l, links, margin, false) {
      SomeLinkPays(links, edges, margin, e);
    }
    PaidTotal(a, links, margin, true);
    PaidTotal(b, links, margin, false);
    OwedUnion(a, b, links, margin);
    assert m == a + b;
    OwedAtLeastWeight(m, links, margin);
    if forall l | l in links :: l.weight >= 0.0 { GainsAll(links); }
  }

  // ---- when the links are a maximum-weight matching --------------------------------------

  ghost predicate Maximum(links: set<Edge>, edges: set<Edge>) {
    forall m: set<Edge> | m <= edges && Matching(m) :: Weight(m) <= Weight(links)
  }

  /** No edge competes both for its target and for its candidate. */
  ghost predicate PathFree(edges: set<Edge>) {
    forall e, a, b | e in edges && a in edges && b in edges && !SamePair(a, e) && !SamePair(b, e) ::
      !(a.target == e.target && b.candidate == e.candidate)
  }

  /** f beats everything it competes with by the margin. */
  ghost predicate Winner(f: Edge, edges: set<Edge>, margin: real) {
    f in edges && forall g | g in edges && Touches(f, g) && !SamePair(f, g) :: f.weight - g.weight >= margin
  }

  /** Every edge is, or competes with, a clear winner. */
  ghost predicate ClearWinners(edges: set<Edge>, margin: real) {
    forall e | e in edges :: exists f :: Touches(e, f) && Winner(f, edges, margin)
  }

  lemma WinnerLinked(f: Edge, links: set<Edge>, edges: set<Edge>, margin: real)
    requires margin > 0.0 && OnePerPair(edges) && Settled(links, edges, margin) && Winner(f, edges, margin)
    ensures f in links
  {
    var heavy := Heavier(links, f.weight);
    forall l | l in heavy ensures !Touches(f, l) {
      assert l in edges && !SamePair(f, l);
    }
    assert Takeable(f, edges, heavy, margin);
  }

  /** An edge that competes with one link of a path-free set competes with no other. */
  lemma NoBridge(l: Edge, g: Edge, k: Edge, edges: set<Edge>)
    requires PathFree(edges) && l in edges && g in edges && k in edges
    requires Touches(l, g) && !SamePair(l, g) && !Touches(l, k)
    ensures !Touches(g, k)
  {
    if !SamePair(k, g) {
      assert !(l.target == g.target && k.candidate == g.candidate);
      assert !(k.target == g.target && l.candidate == g.candidate);
    }
  }

  lemma LinkWins(l: Edge, links: set<Edge>, edges: set<Edge>, margin: real)
    requires margin > 0.0 && OnePerPair(edges) && Settled(links, edges, margin)
    requires PathFree(edges) && l in links
    ensures Winner(l, edges, margin)
  {
    hide PathFree;
    SettledMatches(links, edges, margin);
    var heavy := Heavier(links, l.weight);
    forall g | g in edges && Touches(l, g) && !SamePair(l, g) ensures l.weight - g.weight >= margin {
      forall k | k in heavy ensures !Touches(g, k) { NoBridge(l, g, k, edges); }
      assert !Rival(l, g, heavy, margin);
    }
  }

  ghost function WinnersOf(m: set<Edge>, edges: set<Edge>, margin: real): (f: map<Edge, Edge>)
    requires forall e | e in m :: exists f :: Touches(e, f) && Winner(f, edges, margin)
    ensures f.Keys == m && forall e | e in m :: Touches(e, f[e]) && Winner(f[e], edges, margin)
  {
    map e | e in m :: var f :| Touches(e, f) && Winner(f, edges, margin); f
  }

  lemma OneWinnerEach(a: Edge, b: Edge, f: Edge, edges: set<Edge>)
    requires PathFree(edges) && OnePerPair(edges) && a in edges && b in edges && f in edges
    requires Touches(a, f) && !Touches(a, b)
    ensures !Touches(b, f)
  {
    if !SamePair(a, f) { NoBridge(a, f, b, edges); }
  }

  lemma WinnersSuffice(links: set<Edge>, edges: set<Edge>, margin: real, m: set<Edge>)
    requires margin > 0.0 && OnePerPair(edges) && Settled(links, edges, margin)
    requires PathFree(edges) && forall e | e in edges :: e.weight >= 0.0
    requires ClearWinners(edges, margin) && m <= edges && Matching(m)
    ensures Weight(m) <= Weight(links)
  {
    hide Settled, PathFree, OnePerPair, Winner, Touches, Matching, ClearWinners, SamePair;
    ClearWinnersOf(edges, margin, m);
    var f := WinnersOf(m, edges, margin);
    forall e | e in m ensures f[e] in links && Owed(e, m, margin) <= f[e].weight {
      WinnerLinked(f[e], links, edges, margin);
      WinnerHeaviest(e, f[e], edges, margin);
    }
    forall a, b | a in m && b in m && a != b ensures f[a] != f[b] {
      MatchingApart(a, b, m);
      WinnerHeaviest(a, f[a], edges, margin);
      OneWinnerEach(a, b, f[a], edges);
    }
    SettledInside(links, edges, margin);
    ChargedTotal(m, m, margin, f, links);
    GainsAll(links);
    OwedAtLeastWeight(m, m, margin);
  }

  lemma ClearWinnersOf(edges: set<Edge>, margin: real, m: set<Edge>)
    requires ClearWinners(edges, margin) && m <= edges
    ensures forall e | e in m :: exists f :: Touches(e, f) && Winner(f, edges, margin)
  {
  }

  lemma MatchingApart(a: Edge, b: Edge, m: set<Edge>)
    requires Matching(m) && a in m && b in m && a != b
    ensures !Touches(a, b)
  {
  }

  lemma WinnerHeaviest(e: Edge, f: Edge, edges: set<Edge>, margin: real)
    requires margin > 0.0 && OnePerPair(edges) && e in edges && Touches(e, f) && Winner(f, edges, margin)
    ensures e.weight <= f.weight && f in edges
  {
    if SamePair(e, f) { assert e == f; }
  }

  lemma SettledInside(links: set<Edge>, edges: set<Edge>, margin: real)
    requires Settled(links, edges, margin)
    ensures links <= edges
  {
  }

  /** An edge without a clear winner can be added to the links. */
  lemma WinnersNeeded(links: set<Edge>, edges: set<Edge>, margin: real, e: Edge)
    requires margin > 0.0 && OnePerPair(edges) && Settled(links, edges, margin)
    requires PathFree(edges) && e in edges && e.weight > 0.0
    requires forall f :: !(Touches(e, f) && Winner(f, edges, margin))
    ensures !Maximum(links, edges)
  {
    hide PathFree, Winner;
    forall l | l in links ensures !Touches(e, l) && l != e {
      LinkWins(l, links, edges, margin);
    }
    SettledMatches(links, edges, margin);
    WeightWithout(links + {e}, e);
    assert links + {e} - {e} == links;
    assert Matching(links + {e});
  }

  /** Without competing paths, the links are maximum exactly when every edge has a clear winner. */
  lemma MaximumWhenPathFree(links: set<Edge>, edges: set<Edge>, margin: real)
    requires margin > 0.0 && OnePerPair(edges) && Settled(links, edges, margin)
    requires PathFree(edges) && forall e | e in edges :: e.weight > 0.0
    ensures Maximum(links, edges) <==> ClearWinners(edges, margin)
  {
    hide Settled, PathFree, OnePerPair, Winner;
    if ClearWinners(edges, margin) {
      forall m: set<Edge> | m <= edges && Matching(m) ensures Weight(m) <= Weight(links) {
        WinnersSuffice(links, edges, margin, m);
      }
    } else {
      var e :| e in edges && forall f :: !(Touches(e, f) && Winner(f, edges, margin));
      WinnersNeeded(links, edges, margin, e);
    }
  }

  /** A weighting of comparable pairs in which every edge reaches the link threshold. */
  ghost predicate Over(edges: set<Edge>, pairs: set<(nat, nat)>, threshold: real) {
    OnePerPair(edges) && forall e | e in edges :: e.weight >= threshold && (e.target, e.candidate) in pairs
  }

  ghost predicate PairsPathFree(pairs: set<(nat, nat)>) {
    forall p, a, b | p in pairs && a in pairs && b in pairs && a != p && b != p ::
      !(a.0 == p.0 && b.1 == p.1)
  }

  /** Clear winners always suffice for a maximum-weight assignment of eligible edges. */
  ghost predicate AlwaysMaximum(pairs: set<(nat, nat)>, margin: real, threshold: real) {
    forall edges: set<Edge>, links: set<Edge> |
      Over(edges, pairs, threshold) && ClearWinners(edges, margin) && Settled(links, edges, margin) ::
      Maximum(links, edges)
  }

  lemma PairWeight(a: Edge, b: Edge)
    requires a != b
    ensures Weight({a, b}) == a.weight + b.weight && Weight({a}) == a.weight
  {
    WeightWithout({a, b}, a);
    WeightWithout({a}, a);
    WeightWithout({b}, b);
    assert {a, b} - {a} == {b} && {a} - {a} == {} && {b} - {b} == {};
  }

  /** A middle edge that competes with two others of one weight and is heavier than each by the margin. */
  predicate Middle(e: Edge, a: Edge, b: Edge, margin: real) {
    && a.weight == b.weight && e.weight >= a.weight + margin
    && a.target == e.target && b.candidate == e.candidate && !SamePair(a, e) && !SamePair(b, e)
  }

  lemma MiddleSettles(e: Edge, a: Edge, b: Edge, margin: real)
    requires margin > 0.0 && Middle(e, a, b, margin)
    ensures Settled({e}, {e, a, b}, margin)
  {
    assert Heavier({e}, e.weight) == {} && Heavier({e}, a.weight) == {e};
    assert Takeable(e, {e, a, b}, {}, margin);
    assert !Free(a, {e}) && !Free(b, {e});
  }

  /** It is linked alone, although the other two together weigh more. */
  lemma MiddleEdgeLoses(e: Edge, a: Edge, b: Edge, margin: real)
    requires margin > 0.0 && Middle(e, a, b, margin) && a.weight + b.weight > e.weight
    ensures ClearWinners({e, a, b}, margin) && OnePerPair({e, a, b})
    ensures Settled({e}, {e, a, b}, margin) && !Maximum({e}, {e, a, b})
  {
    hide Maximum, Settled, ClearWinners, Middle;
    MiddlePairs(e, a, b, margin);
    MiddleWins(e, a, b, margin);
    MiddleSettles(e, a, b, margin);
    MiddleWeighsLess(e, a, b, margin);
  }

  lemma MiddlePairs(e: Edge, a: Edge, b: Edge, margin: real)
    requires Middle(e, a, b, margin)
    ensures OnePerPair({e, a, b})
  {
    assert !SamePair(a, b);
  }

  lemma MiddleWins(e: Edge, a: Edge, b: Edge, margin: real)
    requires margin > 0.0 && Middle(e, a, b, margin)
    ensures ClearWinners({e, a, b}, margin)
  {
    var edges := {e, a, b};
    MiddleBeats(e, a, b, margin);
    hide Winner;
    forall f | f in edges ensures exists w :: Touches(f, w) && Winner(w, edges, margin) {
      assert Touches(f, e);
    }
  }

  lemma MiddleBeats(e: Edge, a: Edge, b: Edge, margin: real)
    requires Middle(e, a, b, margin)
    ensures Winner(e, {e, a, b}, margin)
  {
  }

  lemma MiddleWeighsLess(e: Edge, a: Edge, b: Edge, margin: real)
    requires Middle(e, a, b, margin) && a.weight + b.weight > e.weight
    ensures !Maximum({e}, {e, a, b})
  {
    PairWeight(a, b);
    PairWeight(e, a);
    var m := {a, b};
    assert Matching(m) && m <= {e, a, b} && Weight(m) > Weight({e});
  }

  /** A single edge of negative weight is linked, and linking nothing would weigh more. */
  lemma NegativeLinked(e: Edge, margin: real)
    requires e.weight < 0.0
    ensures ClearWinners({e}, margin) && OnePerPair({e}) && Settled({e}, {e}, margin) && !Maximum({e}, {e})
  {
    WeightWithout({e}, e);
    assert {e} - {e} == {} && Heavier({e}, e.weight) == {};
    assert Takeable(e, {e}, {}, margin);
    assert Winner(e, {e}, margin) && Touches(e, e);
    var none: set<Edge> := {};
    assert Matching(none) && none <= {e} && Weight(none) > Weight({e});
  }

  /**
   The assignment called maximum-weight in the documentation is one for every clear-cut eligible weighting
   exactly when no comparable pair competes on both of its sides and the threshold admits no negative edge.
   */
  lemma MaximumExactly(pairs: set<(nat, nat)>, margin: real, threshold: real)
    requires margin > 0.0
    ensures AlwaysMaximum(pairs, margin, threshold)
       <==> PairsPathFree(pairs) && (threshold >= 0.0 || pairs == {})
  {
    hide ClearWinners, Settled, Maximum, Matching;
    if !PairsPathFree(pairs) {
      var p, a, b :| p in pairs && a in pairs && b in pairs && a != p && b != p && a.0 == p.0 && b.1 == p.1;
      var side := Max(threshold, 2.0 * margin);
      var e, f, g := Edge(side + margin, p.0, p.1), Edge(side, a.0, a.1), Edge(side, b.0, b.1);
      MiddleEdgeLoses(e, f, g, margin);
      assert Over({e, f, g}, pairs, threshold);
    } else if threshold < 0.0 && pairs != {} {
      var p :| p in pairs;
      var e := Edge(threshold, p.0, p.1);
      NegativeLinked(e, margin);
      assert Over({e}, pairs, threshold);
    } else {
      forall edges: set<Edge>, links: set<Edge> |
        Over(edges, pairs, threshold) && ClearWinners(edges, margin) && Settled(links, edges, margin)
        ensures Maximum(links, edges)
      {
        ClearMaximum(links, edges, pairs, margin, threshold);
      }
    }
  }

  lemma ClearMaximum(links: set<Edge>, edges: set<Edge>, pairs: set<(nat, nat)>, margin: real, threshold: real)
    requires margin > 0.0 && PairsPathFree(pairs) && (threshold >= 0.0 || pairs == {})
    requires Over(edges, pairs, threshold) && ClearWinners(edges, margin) && Settled(links, edges, margin)
    ensures Maximum(links, edges)
  {
    hide ClearWinners, Settled, Matching;
    OverPathFree(edges, pairs, threshold);
    forall m: set<Edge> | m <= edges && Matching(m) ensures Weight(m) <= Weight(links) {
      WinnersSuffice(links, edges, margin, m);
    }
  }

  lemma OverPathFree(edges: set<Edge>, pairs: set<(nat, nat)>, threshold: real)
    requires PairsPathFree(pairs) && (threshold >= 0.0 || pairs == {}) && Over(edges, pairs, threshold)
    ensures PathFree(edges) && forall e | e in edges :: e.weight >= 0.0
  {
    forall e | e in edges ensures (e.target, e.candidate) in pairs { }
  }
}
